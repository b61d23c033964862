/** The alert-producing branches of `do_endpoint_check` and the walk over
    the configured sites in `do_heartbeat_check`. The HTTP request itself is
    not modelled: its outcome (a status and a body, or an exception) is an
    input. The process-wide `ALERTS` list becomes the returned sequence. */
module Probe {
  import opened Text

  /** What the `exception` field of an alert record holds. */
  datatype Cause =
    | StatusCodeMismatch
    | DomStringMismatch
      /** The exception caught by the `except` branch, seen through `str()`. */
    | Raised(message: string)

  /** One entry `{"alert": {...}}` of `ALERTS`. */
  datatype Alert = Alert(site: string, endpoint: string, expected: int, received: int, cause: Cause)

  /** One entry of `sites.json`: the path, the expected `status` (after
      `int()`) and the `dom_contains` search key. */
  datatype Endpoint = Endpoint(path: string, status: int, domContains: string)

  /** How the request to an endpoint ended. */
  datatype Outcome =
    | Responded(status: int, body: string)
    | Unreachable(message: string)

  function StatusAlert(site: string, e: Endpoint, status: int): Alert {
    Alert(site, e.path, e.status, status, StatusCodeMismatch)
  }

  function DomAlert(site: string, e: Endpoint): Alert {
    Alert(site, e.path, 0, 0, DomStringMismatch)
  }

  /** The search key is set (truthy) and the body does not contain it. */
  predicate DomMissing(e: Endpoint, body: string) {
    e.domContains != [] && !Contains(body, e.domContains)
  }

  /** The alerts a reachable endpoint produces: a status alert when the
      status differs from the configured one, then a DOM alert when the
      search key is set and absent from the body. */
  function Classify(site: string, e: Endpoint, status: int, body: string): (r: seq<Alert>)
    ensures StatusAlert(site, e, status) in r <==> status != e.status
    ensures DomAlert(site, e) in r <==> DomMissing(e, body)
    ensures forall a :: a in r ==> a == StatusAlert(site, e, status) || a == DomAlert(site, e)
    ensures |r| == (if status != e.status then 1 else 0) + (if DomMissing(e, body) then 1 else 0)
    ensures |r| == 2 ==> r[0].cause == StatusCodeMismatch && r[1].cause == DomStringMismatch
  {
    var statusAlerts := if status != e.status then [StatusAlert(site, e, status)] else [];
    var domAlerts :=
      if e.domContains != [] && Find(body, e.domContains) == -1 then [DomAlert(site, e)] else [];
    statusAlerts + domAlerts
  }

  /** The `except` branch: one alert with received status 0. */
  function UnreachableAlert(site: string, e: Endpoint, message: string): Alert {
    Alert(site, e.path, e.status, 0, Raised(message))
  }

  /** An endpoint passes when it answered with the expected status and,
      if a search key is set, with a body containing it. */
  predicate Passes(e: Endpoint, o: Outcome) {
    o.Responded? && o.status == e.status && !DomMissing(e, o.body)
  }

  /** `do_endpoint_check` for one endpoint. */
  function CheckEndpoint(site: string, e: Endpoint, o: Outcome): (r: seq<Alert>)
    ensures r == [] <==> Passes(e, o)
    ensures 0 <= |r| <= 2
    ensures o.Responded? ==> r == Classify(site, e, o.status, o.body)
    ensures o.Unreachable? ==>
              |r| == 1 && r[0].received == 0 && r[0].expected == e.status
              && r[0].cause == Raised(o.message)
    ensures o.Responded? ==> forall a :: a in r ==> !a.cause.Raised?
    ensures forall a :: a in r ==> a.site == site && a.endpoint == e.path
  {
    match o
    case Responded(status, body) => Classify(site, e, status, body)
    case Unreachable(message) => [UnreachableAlert(site, e, message)]
  }

  /** One configured site: its `check` flag and, per endpoint, how the
      request went. */
  datatype Site = Site(name: string, check: bool, probes: seq<(Endpoint, Outcome)>)

  predicate SitePasses(s: Site) {
    s.check ==> forall i :: 0 <= i < |s.probes| ==> Passes(s.probes[i].0, s.probes[i].1)
  }

  /** `do_heartbeat_check` for one site: nothing when its `check` flag is
      off, otherwise every alert of every endpoint and no other. */
  function CheckSite(s: Site): (r: seq<Alert>)
    ensures r == [] <==> SitePasses(s)
    ensures forall a :: a in r ==> a.site == s.name && s.check
    ensures forall i, a :: s.check && 0 <= i < |s.probes| && a in CheckEndpoint(s.name, s.probes[i].0, s.probes[i].1) ==>
              a in r
    ensures forall a :: a in r ==>
              exists i :: 0 <= i < |s.probes| && a in CheckEndpoint(s.name, s.probes[i].0, s.probes[i].1)
  {
    if s.check then CheckEndpoints(s.name, s.probes) else []
  }

  /** The endpoints of one site, checked in order: every alert of every
      endpoint is collected, and nothing else. */
  function CheckEndpoints(site: string, probes: seq<(Endpoint, Outcome)>): (r: seq<Alert>)
    ensures r == [] <==> forall i :: 0 <= i < |probes| ==> Passes(probes[i].0, probes[i].1)
    ensures forall a :: a in r ==> a.site == site
    ensures forall i, a :: 0 <= i < |probes| && a in CheckEndpoint(site, probes[i].0, probes[i].1) ==> a in r
    ensures forall a :: a in r ==>
              exists i :: 0 <= i < |probes| && a in CheckEndpoint(site, probes[i].0, probes[i].1)
  {
    if probes == [] then []
    else
      var first := CheckEndpoint(site, probes[0].0, probes[0].1);
      var rest := CheckEndpoints(site, probes[1..]);
      assert forall i :: 1 <= i < |probes| ==> probes[i] == probes[1..][i - 1];
      first + rest
  }

  /** `do_heartbeat_check`: the contents of `ALERTS` after every endpoint of
      every site whose `check` flag is set has been checked, in order: the
      alerts of every site and no others. */
  function Heartbeat(sites: seq<Site>): (r: seq<Alert>)
    ensures r == [] <==> forall i :: 0 <= i < |sites| ==> SitePasses(sites[i])
    ensures forall i, a :: 0 <= i < |sites| && a in CheckSite(sites[i]) ==> a in r
    ensures forall a :: a in r ==> exists i :: 0 <= i < |sites| && a in CheckSite(sites[i])
  {
    if sites == [] then []
    else
      var rest := Heartbeat(sites[1..]);
      assert forall i :: 1 <= i < |sites| ==> sites[i] == sites[1..][i - 1];
      CheckSite(sites[0]) + rest
  }

  /** The alerts of each endpoint, endpoint by endpoint. */
  function EndpointAlerts(site: string, probes: seq<(Endpoint, Outcome)>): (r: seq<seq<Alert>>)
    ensures |r| == |probes|
    ensures forall i :: 0 <= i < |probes| ==> r[i] == CheckEndpoint(site, probes[i].0, probes[i].1)
  {
    seq(|probes|, i requires 0 <= i < |probes| => CheckEndpoint(site, probes[i].0, probes[i].1))
  }

  /** The alerts of each site, site by site. */
  function SiteAlerts(sites: seq<Site>): (r: seq<seq<Alert>>)
    ensures |r| == |sites|
    ensures forall i :: 0 <= i < |sites| ==> r[i] == CheckSite(sites[i])
  {
    seq(|sites|, i requires 0 <= i < |sites| => CheckSite(sites[i]))
  }

  /** Endpoints are checked in order: the alerts of a site are those of its
      first endpoint, then those of the second, and so on. */
  lemma {:induction false} CheckEndpointsInOrder(site: string, probes: seq<(Endpoint, Outcome)>)
    ensures CheckEndpoints(site, probes) == Flatten(EndpointAlerts(site, probes))
    decreases |probes|
  {
    if probes != [] {
      CheckEndpointsInOrder(site, probes[1..]);
      assert EndpointAlerts(site, probes)[1..] == EndpointAlerts(site, probes[1..]);
    }
  }

  /** Sites are checked in order: `ALERTS` holds the alerts of the first
      site, then those of the second, and so on. */
  lemma {:induction false} HeartbeatInOrder(sites: seq<Site>)
    ensures Heartbeat(sites) == Flatten(SiteAlerts(sites))
    decreases |sites|
  {
    if sites != [] {
      HeartbeatInOrder(sites[1..]);
      assert SiteAlerts(sites)[1..] == SiteAlerts(sites[1..]);
    }
  }

  /** A checked site contributes its endpoints' alerts in order; an
      unchecked one contributes nothing. */
  lemma CheckSiteInOrder(s: Site)
    ensures CheckSite(s) == if s.check then Flatten(EndpointAlerts(s.name, s.probes)) else []
  {
    CheckEndpointsInOrder(s.name, s.probes);
  }

  /** Every alert names a site whose `check` flag is set. */
  lemma AlertsFromCheckedSites(sites: seq<Site>)
    ensures forall a :: a in Heartbeat(sites) ==>
              exists i :: 0 <= i < |sites| && sites[i].check && sites[i].name == a.site
  {
    forall a | a in Heartbeat(sites)
      ensures exists i :: 0 <= i < |sites| && sites[i].check && sites[i].name == a.site
    {
      var i :| 0 <= i < |sites| && a in CheckSite(sites[i]);
      assert sites[i].check && sites[i].name == a.site;
    }
  }
}
