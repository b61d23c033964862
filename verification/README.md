# PythonMonitorScript in Dafny

A model of the decision logic of `run.py`, a script meant to be run
periodically to watch a set of web endpoints and mail an urgent
notification when they keep failing. Each invocation does the following:

- probes every endpoint of every site whose `check` flag is set;
- collects an alert per failed expectation;
- advances a persisted failure-tick counter and incident start;
- sends one HTML email when a threshold fires.

The model keeps everything that decides *what happens*. It drops the
network, file and mail plumbing around it.

Modules, one per concern:

- `Text`: the Python built-ins the script relies on, written out. This
  covers `str()` of an integer with its parser and the decimal round trips,
  `str.find`, and splitting at a character.
- `Probe`: `do_endpoint_check` and `do_heartbeat_check`.
  - One endpoint's outcome (a status and a body, or the message of the
    exception raised) becomes zero, one or two alerts: a status-code
    mismatch and/or a DOM-string mismatch, or a single "unreachable" alert.
  - The process-wide `ALERTS` list becomes the returned sequence, in
    checking order.
- `Duration`: `get_pretty_time` and its inner `totalDuration`. This is a
  divmod chain over whole seconds, with a reader for the
  `"{h}h {m}m {s}s"` text it prints.
- `Digest`: `get_email_markup`. It is a loop that appends one block of
  labelled lines per alert. A reader recovers the printed fields.
- `Incident`: the failure-tick state machine of the `__main__` block. It is
  a pure `Step` on `(failedCount, incidentStart)`, driven by "did this run
  produce alerts", plus `Replay` over many runs.
- `Monitor`: one whole invocation. It wires the heartbeat, the state
  machine and the email.

Facts about run.py that shape the model:

- run.py counts runs (ticks) in `failed_count`.
  - A failing run adds exactly one, whatever the number of alerts
    (run.py:302-304).
  - A clean run caps a counter above 5 at 5, then counts down by one per
    run (run.py:339-347).
- The incident start is cleared only by a clean run that *reads* the
  counter at 0 (run.py:350-351). From counter `c`, clearing takes `c + 1`
  clean runs when `c <= 5`, and 7 when `c > 5`
  (6 → 5 → 4 → 3 → 2 → 1 → 0 → cleared). `Incident.RunsToClear` states
  this and `Incident.ClearingLag` proves it.
- Every email goes to `ALERTS_EMAIL` (run.py:180), with the new tick count
  as its "failure count".
- In the `except` branch the alert stores the exception object. The fallback
  text `"Unreachable, response code is 0"` (chosen when `str(ex)` is empty)
  is only logged. The digest therefore prints the exception's own `str()`,
  which may be empty, and the model does the same (`Probe.Cause.Raised`).

## Model

| member | source | states |
|---|---|---|
| Incident.Step | run.py:301-351 | A failing run sets the counter to old + 1. It stamps the start with `now` only when none is recorded and the new count is at least 1, and never overwrites a recorded start. It sends at most one email, and sends one iff the new count `n` satisfies 5 ≤ n < 30 or (n ≥ 30 and n % 15 == 0). A clean run sends nothing, caps a counter above 5 at 5, lowers 1..5 by one and leaves 0 (or less) alone. It clears the start iff the counter it read was 0. Consistency (count ≥ 0, and a start whenever count > 0) is preserved. |
| Incident.FailingRunEmails | run.py:313-330 | A failing run sends exactly one email when the new count is due and none otherwise. |
| Incident.AllClearIsStable | run.py:332-351 | A clean run from the all-clear record (0, no start) leaves it unchanged and sends nothing. |
| Incident.EmailReportsEarlierStart | run.py:306-330 | From a consistent record, every email reports an incident start that an earlier run recorded. That start is kept, so the email never reads back the string "None". |
| Incident.ReplayConsistent | run.py:301-351 | Any sequence of runs from a consistent record ends in a consistent record. |
| Incident.ClearingLag | run.py:332-351 | Clean runs from counter c send no email and leave the counter at the closed form `CounterAfterCleanRuns(c, k)`. They keep the incident start for fewer than `RunsToClear(c)` runs (c + 1, or 7 when c > 5). From then on the record is all clear. |
| Incident.EmailsWithinStep | run.py:313-330 | The closed-form email count `EmailsWithin` grows by one exactly at the ticks where an email is due. |
| Incident.Outage | run.py:301-330 | k failing runs from counter c leave the counter at c + k. They send exactly `EmailsWithin(c + k) - EmailsWithin(c)` emails, one per due tick in c+1..c+k. |
| Incident.OutageFromAllClear | run.py:301-330 | From all clear, k ≥ 1 failing runs leave the record (k, start = clock of the first run). They send `EmailsWithin(k)` emails: none before tick 5, one per tick up to 29, then one per multiple of 15. |
| Incident.KeepsStart | run.py:306-310 | Failing runs never move a recorded incident start. |
| Probe.Classify | run.py:42-90 | A reachable endpoint yields a "Status code mismatch" alert (expected = configured status, received = actual) iff the status differs. It yields a "DOM string mismatch" alert (expected 0, received 0) iff the search key is non-empty and not a substring of the body. There are no other alerts, the count is the sum of the two indicators, and the status alert comes first. |
| Probe.CheckEndpoint | run.py:32-109 | An endpoint yields no alert iff it answered with the configured status and, when a key is set, a body containing it. It yields at most two alerts. A response yields exactly the alerts of `Probe.Classify`, so a status mismatch is never reported as anything else. An exception yields exactly one alert with received 0, expected = configured status, and the exception's text. Only the exception path yields a `Raised` cause. Every alert names the site and endpoint. |
| Probe.CheckEndpoints | run.py:120-121 | A site's endpoints yield no alert iff every one passes. Every alert of every endpoint is collected, and every collected alert is an alert of one of the endpoints. Every alert names the site. |
| Probe.CheckSite | run.py:115-123 | A site yields no alert iff its check flag is off or all its endpoints pass. For a checked site, every alert of every endpoint is collected. Every collected alert is an alert of one of its endpoints, and alerts come only from checked sites. |
| Probe.Heartbeat | run.py:112-125 | `ALERTS` ends empty iff every site passes. It holds every alert of every site, and only those. |
| Probe.CheckEndpointsInOrder | run.py:120-121 | A site's alerts are its endpoints' alerts joined left to right: those of the first endpoint, then those of the second, and so on. |
| Probe.HeartbeatInOrder | run.py:115-121 | `ALERTS` is the sites' alerts joined left to right: those of the first site, then those of the second, and so on. |
| Probe.CheckSiteInOrder | run.py:115-123 | A checked site contributes its endpoints' alerts joined left to right. An unchecked site contributes nothing. |
| Probe.AlertsFromCheckedSites | run.py:115-121 | Every alert in `ALERTS` carries the name of a site whose check flag is set. |
| Text.Find | run.py:71 | `str.find`: -1 iff the needle does not occur. Otherwise the result is an occurrence and no earlier index is one. |
| Text.ParseIntToString | run.py:137-141 | The printed response code `str(received)` reads back as the same integer. |
| Text.NatToStringOfDigits | run.py:281 | `str()` of a number is the unique canonical digit string for its value. |
| Duration.Decompose | run.py:251-281 | The hours, minutes and seconds kept by `totalDuration` satisfy h < 24, m < 60 and s < 60, and h·3600 + m·60 + s equals the duration mod 86400 (floor semantics). Years and days are dropped. |
| Duration.TotalDuration | run.py:274-281 | The `"{h}h {m}m {s}s"` text reads back as exactly the decomposed clock. |
| Duration.ParsedIsPrinted | run.py:281 | Any text the reader accepts is exactly the text printed for the clock it reads. No other spelling, such as a leading zero, is accepted, so the printed text is the unique rendering of its clock. |
| Duration.WholeUnits | run.py:251-267 | `int(divmod(x, unit)[0])` is the number of whole units that fit in x, rounding down: n·unit ≤ x < (n+1)·unit. |
| Duration.GetPrettyTime | run.py:244-290 | Years, days, hours and minutes give the duration rounded down to whole units. "seconds" gives the raw duration. "default", and only it, gives text that reads back as the hours, minutes and seconds of the duration. |
| Digest.EmailMarkup | run.py:128-149 | The accumulating loop produces the digest `Markup`: the blocks of the alerts in order. |
| Digest.MarkupReadsBack | run.py:128-149 | When no printed field contains `<`, reading the digest back gives, in order, each alert's site, endpoint, response code and exception text. |
| Monitor.Email | run.py:313-330 | The email goes to the configured alerts address. It carries the new count and the recorded start, with elapsed time = script start − incident start. Its body is always the full digest `Markup` of the alerts, whatever they contain. When no site, endpoint or exception text contains `<`, that digest reads back as the alerts. |
| Monitor.RunScript | run.py:293-351 | The run has no alerts iff every site passes. The record written is `Step`'s. An email goes out iff there are alerts and the new count is due. It goes to the alerts address with failure count old + 1 and the full digest `Markup` of the run's alerts, and reports the start recorded before the run when the record was consistent. |
| Monitor.AlertsAreHeartbeat | run.py:298-301 | The alerts a run acts on are exactly `ALERTS` after the heartbeat. `Monitor.RunScript` makes them the email's digest, and `Probe.HeartbeatInOrder` and `Probe.CheckSiteInOrder` give their order. |

## Left out

- HTTP probing (aiohttp sessions, the 5-second timeout, the asyncio event loop): network I/O and concurrency. The status and body, or the exception's text, are inputs.
- Persistence of `tracking.json`, loading of `sites.json` and parsing of `config.ini`: file I/O. The record and the configuration are values. A missing or corrupt file, a missing `failed_count`, and a non-numeric `status` (the `ValueError` of `int()`) are not modelled.
- A missing `dom_contains` key: the `KeyError` at run.py:67 falls into the `except` branch. When the status matched, that is one `Raised` alert, which the model can express as an unreachable outcome. When the status also differed, run.py:51-65 has already appended the status alert, so the endpoint contributes two alerts: the status mismatch and then `Raised("'dom_contains'")`. The model cannot represent that outcome. `Probe.CheckEndpoint` gives a responded endpoint only mismatch alerts.
- The search key and the body are strings. `str()` of a non-string `dom_contains` is not modelled.
- Mailgun posting and the `str.replace` templating of `send_urgent_email`: external API. The email is the tuple of values the template receives.
- Monitor.Email: stores the elapsed seconds rather than the rendered `TotalDuration` text; `Duration.TotalDuration` states what that text is.
- Clock readings and timestamps are whole seconds passed in as parameters. This covers `datetime.now()`, the module-load-time default of `get_pretty_time`, `fromisoformat` and the float `total_seconds()`. Sub-second precision and the ISO text format of the stored start are not modelled.
- `sites.json` dictionary order is modelled as the order of a sequence.
- All `print` logging.
