/** The failure-tick state machine of the `__main__` block of run.py.

    The persisted record `tracking.json` holds a failure counter and the
    incident start. Each run of the script is one transition of that pair,
    driven only by whether the run produced any alerts. The counter counts
    runs (ticks), not minutes: a failing run adds exactly one whatever the
    number of alerts; a clean run first caps a high counter at 5 and then
    counts it down by one per run; the incident start is cleared only by a
    clean run that finds the counter already at 0. */
module Incident {
  import opened Text

  /** `failed_count` and `incident_start_timestamp`; a JSON `null` start
      reads back as the string "None", modelled as `None`. */
  datatype State = State(failedCount: int, incidentStart: Option<Timestamp>)

  /** The record of a deployment that has never failed, and the shape every
      recovery ends in. */
  const AllClear := State(0, None)

  /** Failing runs in a row before the first email. */
  const FirstAlertTick := 5
  /** From this tick on, emails are only sent every `AlertEvery` ticks. */
  const QuietTick := 30
  const AlertEvery := 15
  /** A clean run brings any higher counter down to this value. */
  const DecayCap := 5

  /** The outcome of one run: the record written back and how many urgent
      emails were sent. */
  datatype Tick = Tick(next: State, emails: nat)

  /** Counter values reached on a failing run that trigger an email:
      every tick from 5 to 29, then every fifteenth tick. */
  predicate AlertDue(n: int) {
    (FirstAlertTick <= n < QuietTick) || (n >= QuietTick && n % AlertEvery == 0)
  }

  /** The records the script can reach from the all-clear record: the
      counter is never negative and, while it is positive, an incident
      start is recorded. */
  predicate Consistent(s: State) {
    s.failedCount >= 0 && (s.failedCount > 0 ==> s.incidentStart.Some?)
  }

  /** One run of the script. `hasAlerts` is whether `ALERTS` is non-empty
      after all checks; `now` is the clock reading used to stamp a new
      incident. The two email guards of the failing branch are evaluated
      separately, as in run.py. */
  function Step(s: State, hasAlerts: bool, now: Timestamp): (t: Tick)
    // A failing run adds exactly one tick.
    ensures hasAlerts ==> t.next.failedCount == s.failedCount + 1
    // The incident start is stamped once and never overwritten.
    ensures hasAlerts && s.incidentStart.Some? ==> t.next.incidentStart == s.incidentStart
    ensures hasAlerts && s.incidentStart.None? && s.failedCount >= 0 ==>
              t.next.incidentStart == Some(now)
    ensures hasAlerts && s.failedCount < 0 ==> t.next.incidentStart == s.incidentStart
    // At most one email, and exactly when the new count is due.
    ensures t.emails <= 1
    ensures t.emails == 1 <==> hasAlerts && AlertDue(s.failedCount + 1)
    ensures t.emails == 1 ==> t.next.incidentStart.Some?
    // A clean run sends nothing and decays a positive counter.
    ensures !hasAlerts && s.failedCount > 0 ==>
              t.next.failedCount == if s.failedCount - 1 < DecayCap then s.failedCount - 1 else DecayCap
    ensures !hasAlerts && s.failedCount <= 0 ==> t.next.failedCount == s.failedCount
    // Only a clean run that finds the counter at 0 clears the start.
    ensures !hasAlerts ==>
              t.next.incidentStart == if s.failedCount == 0 then None else s.incidentStart
    ensures Consistent(s) ==> Consistent(t.next)
  {
    if hasAlerts then
      var next := s.failedCount + 1;
      var start :=
        if next >= 1 && s.incidentStart.None? then Some(now) else s.incidentStart;
      var early := if next >= FirstAlertTick && next < QuietTick then 1 else 0;
      var periodic := if next >= QuietTick && next % AlertEvery == 0 then 1 else 0;
      Tick(State(next, start), early + periodic)
    else
      var count := s.failedCount;
      var decayed :=
        if count > DecayCap then DecayCap
        else if count > 0 then count - 1
        else count;
      var start := if count == 0 then None else s.incidentStart;
      Tick(State(decayed, start), 0)
  }

  /** Clean runs from the all-clear record change nothing and send nothing. */
  lemma AllClearIsStable(now: Timestamp)
    ensures Step(AllClear, false, now) == Tick(AllClear, 0)
  {
  }

  /** Whenever an email goes out from a reachable record, the incident start
      it reports was recorded by an earlier run, so reading it back never
      meets the string "None". */
  lemma EmailReportsEarlierStart(s: State, now: Timestamp)
    ensures Consistent(s) && Step(s, true, now).emails == 1 ==>
              s.incidentStart.Some? && Step(s, true, now).next.incidentStart == s.incidentStart
  {
  }

  /** One input of the script: whether the run saw alerts, and the clock. */
  datatype Run = Run(hasAlerts: bool, now: Timestamp)

  /** The record after a sequence of runs, and the emails they sent. */
  datatype History = History(last: State, emails: nat)

  function Replay(s: State, runs: seq<Run>): History
    decreases |runs|
  {
    if runs == [] then History(s, 0)
    else
      var t := Step(s, runs[0].hasAlerts, runs[0].now);
      var h := Replay(t.next, runs[1..]);
      History(h.last, t.emails + h.emails)
  }

  predicate AllClean(runs: seq<Run>) {
    forall i :: 0 <= i < |runs| ==> !runs[i].hasAlerts
  }

  predicate AllFailing(runs: seq<Run>) {
    forall i :: 0 <= i < |runs| ==> runs[i].hasAlerts
  }

  /** Consistency holds after any sequence of runs. */
  lemma {:induction false} ReplayConsistent(s: State, runs: seq<Run>)
    requires Consistent(s)
    ensures Consistent(Replay(s, runs).last)
    decreases |runs|
  {
    if runs != [] {
      ReplayConsistent(Step(s, runs[0].hasAlerts, runs[0].now).next, runs[1..]);
    }
  }

  /** Clean runs needed before the start is cleared, from counter `c`: a
      counter above 5 is first capped at 5, then counted down to 0, and one
      more clean run finds it at 0. */
  function RunsToClear(c: nat): nat {
    if c > DecayCap then DecayCap + 2 else c + 1
  }

  /** The counter after `k` clean runs from counter `c`. */
  function CounterAfterCleanRuns(c: nat, k: nat): nat {
    if k == 0 then c
    else if c > DecayCap then (if k > DecayCap + 1 then 0 else DecayCap + 1 - k)
    else if k > c then 0 else c - k
  }

  /** The clearing lag: clean runs decay the counter as
      `CounterAfterCleanRuns` says, keep the incident start until the
      `RunsToClear(c)`-th run, and from then on the record is all clear. */
  lemma {:induction false} ClearingLag(s: State, runs: seq<Run>)
    requires s.failedCount >= 0 && AllClean(runs)
    ensures Replay(s, runs).emails == 0
    ensures Replay(s, runs).last.failedCount == CounterAfterCleanRuns(s.failedCount, |runs|)
    ensures |runs| < RunsToClear(s.failedCount) ==>
              Replay(s, runs).last.incidentStart == s.incidentStart
    ensures |runs| >= RunsToClear(s.failedCount) ==> Replay(s, runs).last == AllClear
    decreases |runs|
  {
    if runs != [] {
      var t := Step(s, false, runs[0].now);
      assert AllClean(runs[1..]) by {
        forall i | 0 <= i < |runs| - 1 ensures !runs[1..][i].hasAlerts {
          assert runs[1..][i] == runs[i + 1];
        }
      }
      ClearingLag(t.next, runs[1..]);
    }
  }

  /** Emails sent over the first `k` ticks of an outage: one per tick from
      tick 5 to tick 29, then one at every multiple of 15. */
  function EmailsWithin(k: nat): nat {
    if k < FirstAlertTick then 0
    else if k < QuietTick then k - FirstAlertTick + 1
    else QuietTick - FirstAlertTick + k / AlertEvery - 1
  }

  lemma EmailsWithinStep(n: nat)
    requires n >= 1
    ensures EmailsWithin(n) == EmailsWithin(n - 1) + (if AlertDue(n) then 1 else 0)
  {
  }

  /** A sustained outage: `k` failing runs in a row starting at counter `c`
      leave the counter at `c + k` and send exactly the emails due at ticks
      `c + 1` to `c + k`. */
  lemma {:induction false} Outage(s: State, runs: seq<Run>)
    requires s.failedCount >= 0 && AllFailing(runs)
    ensures Replay(s, runs).last.failedCount == s.failedCount + |runs|
    ensures Replay(s, runs).emails == EmailsWithin(s.failedCount + |runs|) - EmailsWithin(s.failedCount)
    decreases |runs|
  {
    if runs != [] {
      var t := Step(s, true, runs[0].now);
      assert AllFailing(runs[1..]) by {
        forall i | 0 <= i < |runs| - 1 ensures runs[1..][i].hasAlerts {
          assert runs[1..][i] == runs[i + 1];
        }
      }
      Outage(t.next, runs[1..]);
      EmailsWithinStep(s.failedCount + 1);
      FailingRunEmails(s, runs[0].now);
    }
  }

  /** A failing run sends one email exactly when the new count is due. */
  lemma FailingRunEmails(s: State, now: Timestamp)
    ensures Step(s, true, now).emails == if AlertDue(s.failedCount + 1) then 1 else 0
  {
  }

  /** From the all-clear record, an outage of `k` runs is stamped with the
      clock of its first run and sends `EmailsWithin(k)` emails: none in the
      first four runs, then one per run up to run 29, then one every
      fifteen runs. */
  lemma OutageFromAllClear(runs: seq<Run>)
    requires runs != [] && AllFailing(runs)
    ensures Replay(AllClear, runs).last == State(|runs|, Some(runs[0].now))
    ensures Replay(AllClear, runs).emails == EmailsWithin(|runs|)
  {
    Outage(AllClear, runs);
    var t := Step(AllClear, true, runs[0].now);
    KeepsStart(t.next, runs[1..]);
  }

  /** Failing runs never move a recorded start. */
  lemma {:induction false} KeepsStart(s: State, runs: seq<Run>)
    requires s.incidentStart.Some? && AllFailing(runs)
    ensures Replay(s, runs).last.incidentStart == s.incidentStart
    decreases |runs|
  {
    if runs != [] {
      var t := Step(s, true, runs[0].now);
      assert AllFailing(runs[1..]) by {
        forall i | 0 <= i < |runs| - 1 ensures runs[1..][i].hasAlerts {
          assert runs[1..][i] == runs[i + 1];
        }
      }
      KeepsStart(t.next, runs[1..]);
    }
  }
}
