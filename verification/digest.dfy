/** `get_email_markup`: the HTML digest of the alerts of one run, one block
    of four labelled lines per alert, and a reader that recovers the
    printed fields from the digest. */
module Digest {
  import opened Text
  import opened Probe

  const SiteLabel := "<strong>Site:</strong> "
  const EndpointLabel := "<strong>Endpoint:</strong> "
  const CodeLabel := "<strong>Response Code:</strong> "
  const ExceptionLabel := "<strong>Exception:</strong> "
  const LineEnd := " <br>"
  const BlockEnd := "<br>"

  /** `str(alert["alert"]["exception"])`. */
  function CauseText(c: Cause): string {
    match c
    case StatusCodeMismatch => "Status code mismatch"
    case DomStringMismatch => "DOM string mismatch"
    case Raised(message) => message
  }

  function Line(tag: string, value: string): string {
    tag + value + LineEnd
  }

  /** The markup of one alert. The `if alert["alert"]["exception"]` guard
      always holds: the two mismatch texts are non-empty strings and an
      exception object is truthy even when its message is empty. */
  function Block(a: Alert): string {
    Line(SiteLabel, a.site)
      + (Line(EndpointLabel, a.endpoint)
      + (Line(CodeLabel, IntToString(a.received))
      + (Line(ExceptionLabel, CauseText(a.cause))
      + BlockEnd)))
  }

  function Blocks(alerts: seq<Alert>): (r: seq<string>)
    ensures |r| == |alerts|
    ensures forall i :: 0 <= i < |alerts| ==> r[i] == Block(alerts[i])
  {
    if alerts == [] then []
    else
      assert forall i :: 1 <= i < |alerts| ==> alerts[i] == alerts[1..][i - 1];
      [Block(alerts[0])] + Blocks(alerts[1..])
  }

  /** The digest: the blocks of all alerts, first alert first. */
  function Markup(alerts: seq<Alert>): string {
    Flatten(Blocks(alerts))
  }

  /** `get_email_markup` as written: a loop appending one block per alert. */
  method EmailMarkup(alerts: seq<Alert>) returns (html: string)
    ensures html == Markup(alerts)
  {
    html := "";
    var i := 0;
    while i < |alerts|
      invariant 0 <= i <= |alerts|
      invariant html == Flatten(Blocks(alerts)[..i])
    {
      FlattenSnoc(Blocks(alerts), i);
      html := html + Block(alerts[i]);
      i := i + 1;
    }
    assert Blocks(alerts)[..i] == Blocks(alerts);
  }

  /** What a reader of the digest sees of one alert. */
  datatype View = View(site: string, endpoint: string, responseCode: int, exception: string)

  function ViewOf(a: Alert): View {
    View(a.site, a.endpoint, a.received, CauseText(a.cause))
  }

  function Views(alerts: seq<Alert>): (r: seq<View>)
    ensures |r| == |alerts|
    ensures forall i :: 0 <= i < |alerts| ==> r[i] == ViewOf(alerts[i])
  {
    if alerts == [] then [] else [ViewOf(alerts[0])] + Views(alerts[1..])
  }

  /** No printed field contains a `<`, so the digest can be read back. */
  predicate Printable(alerts: seq<Alert>) {
    forall i :: 0 <= i < |alerts| ==>
      '<' !in alerts[i].site && '<' !in alerts[i].endpoint && '<' !in CauseText(alerts[i].cause)
  }

  /** Reads `tag + value + " <br>"` off the front of `s`. */
  function ReadLine(tag: string, s: string): (r: Option<(string, string)>)
    ensures r.Some? ==> |r.value.1| < |s|
  {
    if !(tag <= s) then None
    else
      match SplitAt(s[|tag|..], '<')
      case None => None
      case Some((text, rest)) =>
        if |text| > 0 && text[|text| - 1] == ' ' && "br>" <= rest
        then Some((text[..|text| - 1], rest[3..]))
        else None
  }

  lemma ReadLineOf(tag: string, value: string, tail: string)
    requires '<' !in value
    ensures ReadLine(tag, Line(tag, value) + tail) == Some((value, tail))
  {
    var s := Line(tag, value) + tail;
    assert s[..|tag|] == tag;
    assert s[|tag|..] == (value + " ") + ['<'] + ("br>" + tail);
    SplitAtFirst(value + " ", '<', "br>" + tail);
    assert (value + " ")[..|value|] == value;
    assert ("br>" + tail)[3..] == tail;
  }

  /** Reads one alert block off the front of `s`. */
  function ReadBlock(s: string): (r: Option<(View, string)>)
    ensures r.Some? ==> |r.value.1| < |s|
  {
    match ReadLine(SiteLabel, s)
    case None => None
    case Some((site, s1)) =>
      match ReadLine(EndpointLabel, s1)
      case None => None
      case Some((endpoint, s2)) =>
        match ReadLine(CodeLabel, s2)
        case None => None
        case Some((code, s3)) =>
          match ReadLine(ExceptionLabel, s3)
          case None => None
          case Some((exception, s4)) =>
            match ParseInt(code)
            case None => None
            case Some(n) =>
              if BlockEnd <= s4 then Some((View(site, endpoint, n, exception), s4[|BlockEnd|..]))
              else None
  }

  /** Reads a whole digest back into the views of its alerts. */
  function ReadDigest(s: string): Option<seq<View>>
    decreases |s|
  {
    if s == [] then Some([])
    else
      match ReadBlock(s)
      case None => None
      case Some((v, rest)) =>
        match ReadDigest(rest)
        case None => None
        case Some(vs) => Some([v] + vs)
  }

  lemma ReadBlockOf(a: Alert, tail: string)
    requires '<' !in a.site && '<' !in a.endpoint && '<' !in CauseText(a.cause)
    ensures ReadBlock(Block(a) + tail) == Some((ViewOf(a), tail))
  {
    var code := IntToString(a.received);
    var t4 := BlockEnd + tail;
    var t3 := Line(ExceptionLabel, CauseText(a.cause)) + t4;
    var t2 := Line(CodeLabel, code) + t3;
    var t1 := Line(EndpointLabel, a.endpoint) + t2;
    assert Block(a) + tail == Line(SiteLabel, a.site) + t1;
    ReadLineOf(SiteLabel, a.site, t1);
    ReadLineOf(EndpointLabel, a.endpoint, t2);
    IntToStringAlphabet(a.received, '<');
    ReadLineOf(CodeLabel, code, t3);
    ReadLineOf(ExceptionLabel, CauseText(a.cause), t4);
    ParseIntToString(a.received);
    ReadBlockEnd(Block(a) + tail, t1, t2, t3, t4, code, tail);
  }

  /** The last step of `ReadBlock`: after the four lines comes the closing
      `<br>`. */
  lemma ReadBlockEnd(s: string, s1: string, s2: string, s3: string, s4: string,
                     code: string, tail: string)
    requires ReadLine(SiteLabel, s).Some? && ReadLine(SiteLabel, s).value.1 == s1
    requires ReadLine(EndpointLabel, s1).Some? && ReadLine(EndpointLabel, s1).value.1 == s2
    requires ReadLine(CodeLabel, s2) == Some((code, s3))
    requires ReadLine(ExceptionLabel, s3).Some? && ReadLine(ExceptionLabel, s3).value.1 == s4
    requires ParseInt(code).Some? && s4 == BlockEnd + tail
    ensures ReadBlock(s) == Some((View(ReadLine(SiteLabel, s).value.0, ReadLine(EndpointLabel, s1).value.0,
                                      ParseInt(code).value, ReadLine(ExceptionLabel, s3).value.0), tail))
  {
    assert s4[|BlockEnd|..] == tail;
  }

  /** Round trip: reading the digest gives back, in order, the site,
      endpoint, response code and exception text of every alert. */
  lemma {:induction false} ReadMarkup(alerts: seq<Alert>)
    requires Printable(alerts)
    ensures ReadDigest(Markup(alerts)) == Some(Views(alerts))
  {
    if alerts != [] {
      var a, rest := alerts[0], alerts[1..];
      PrintableTail(alerts);
      ReadMarkup(rest);
      MarkupCons(alerts);
      ReadBlockOf(a, Markup(rest));
      ReadDigestCons(Markup(alerts), ViewOf(a), Markup(rest), Views(rest));
    }
  }

  lemma MarkupReadsBack(alerts: seq<Alert>)
    ensures Printable(alerts) ==> ReadDigest(Markup(alerts)) == Some(Views(alerts))
  {
    if Printable(alerts) {
      ReadMarkup(alerts);
    }
  }

  lemma PrintableTail(alerts: seq<Alert>)
    requires alerts != [] && Printable(alerts)
    ensures Printable(alerts[1..])
  {
  }

  lemma MarkupCons(alerts: seq<Alert>)
    requires alerts != []
    ensures Markup(alerts) == Block(alerts[0]) + Markup(alerts[1..])
  {
  }

  lemma ReadDigestCons(s: string, v: View, rest: string, vs: seq<View>)
    requires ReadBlock(s) == Some((v, rest)) && ReadDigest(rest) == Some(vs)
    ensures ReadDigest(s) == Some([v] + vs)
  {
  }
}
