/** One invocation of the script, as the `__main__` block wires it: check
    every configured endpoint, feed "were there any alerts" to the tick
    state machine, and, when a guard fires, build the urgent email from the
    alert digest, the new counter and the time since the incident started.

    Two clock readings take part, as in run.py: `now`, read when a new
    incident is stamped, and `scriptStart`, the default `now` argument of
    `get_pretty_time`, fixed when the module was loaded. */
module Monitor {
  import opened Text
  import opened Probe
  import opened Digest
  import opened Incident

  /** The part of `config.ini` the decision uses. */
  datatype Config = Config(alertsEmail: string)

  /** The values `send_urgent_email` substitutes into its template, and the
      single recipient it posts to. The template shows `elapsed` (whole
      seconds from the incident start to the script start) as
      `TotalDuration(elapsed)`. */
  datatype UrgentEmail = UrgentEmail(
    to: string,
    alerts: string,
    failureCount: int,
    elapsed: int,
    incidentStart: Timestamp)

  /** The record written back, the alerts of the run and the urgent email,
      if one was sent. */
  datatype Outcome = Outcome(next: State, alerts: seq<Alert>, email: Option<UrgentEmail>)

  /** The email `send_urgent_email` is called with when a guard fires. */
  function Email(cfg: Config, alerts: seq<Alert>, count: int, start: Timestamp,
                 scriptStart: Timestamp): (e: UrgentEmail)
    ensures e.to == cfg.alertsEmail && e.failureCount == count && e.incidentStart == start
    ensures e.elapsed == scriptStart - start
    ensures e.alerts == Markup(alerts)
    ensures Printable(alerts) ==> ReadDigest(e.alerts) == Some(Views(alerts))
  {
    MarkupReadsBack(alerts);
    UrgentEmail(cfg.alertsEmail, Markup(alerts), count, scriptStart - start, start)
  }

  /** One run of the script from the persisted record `s`. */
  function RunScript(cfg: Config, s: State, sites: seq<Site>, now: Timestamp,
                     scriptStart: Timestamp): (r: Outcome)
    ensures r.alerts == [] <==> forall i :: 0 <= i < |sites| ==> SitePasses(sites[i])
    ensures r.next == Step(s, r.alerts != [], now).next
    ensures r.email.Some? <==> r.alerts != [] && AlertDue(s.failedCount + 1)
    // The only recipient is the configured `ALERTS_EMAIL` address.
    ensures r.email.Some? ==> r.email.value.to == cfg.alertsEmail
    ensures r.email.Some? ==>
              && r.email.value.failureCount == s.failedCount + 1
              && r.next.incidentStart == Some(r.email.value.incidentStart)
              && r.email.value.elapsed == scriptStart - r.email.value.incidentStart
    ensures r.email.Some? ==> r.email.value.alerts == Markup(r.alerts)
    ensures r.email.Some? && Printable(r.alerts) ==>
              ReadDigest(r.email.value.alerts) == Some(Views(r.alerts))
    ensures r.email.Some? && Consistent(s) ==> s.incidentStart == Some(r.email.value.incidentStart)
  {
    var alerts := Heartbeat(sites);
    var t := Step(s, alerts != [], now);
    EmailReportsEarlierStart(s, now);
    var email :=
      if t.emails == 1 then
        Some(Email(cfg, alerts, t.next.failedCount, t.next.incidentStart.value, scriptStart))
      else None;
    Outcome(t.next, alerts, email)
  }

  /** The alerts of a run, and so the digest of its email, are the alerts
      of every endpoint of every checked site, in checking order. */
  lemma AlertsAreHeartbeat(cfg: Config, s: State, sites: seq<Site>, now: Timestamp,
                           scriptStart: Timestamp)
    ensures RunScript(cfg, s, sites, now, scriptStart).alerts == Heartbeat(sites)
  {
  }
}
