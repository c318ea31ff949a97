/**
  How long the text of a DIRECT configuration can be (scripts/haproxy_direct_contract.py).
 */
module DirectLength {
  import opened Common
  import opened Decimals
  import opened DirectSpec
  import opened DirectRouting
  import opened DirectText

  lemma OneMore(n: nat, k: nat)
    ensures n * (k + 1) == n * k + n
  {
  }

  lemma {:induction false} JoinLength(texts: seq<string>, n: nat)
    requires forall t :: t in texts ==> |t| <= n
    ensures |Join(texts)| <= (n + 1) * |texts|
  {
    if |texts| > 1 {
      var rest := texts[1..];
      JoinLength(rest, n);
      assert |Join(texts)| == |texts[0]| + 1 + |Join(rest)|;
      OneMore(n + 1, |rest|);
    } else if |texts| == 1 {
      assert Join(texts) == texts[0] && texts[0] in texts;
    }
  }

  lemma {:induction false} ConditionTextsLength(cs: seq<Condition>, n: nat)
    requires forall c :: c in cs ==> |Reference(c.acl)| <= n
    ensures forall t :: t in ConditionTexts(cs) ==> |t| <= n + 1
  {
    hide Reference;
    if cs != [] {
      ConditionTextsLength(cs[1..], n);
      assert |"!"| == 1;
    }
  }

  lemma WhenLength(cs: seq<Condition>, n: nat)
    requires forall c :: c in cs ==> |Reference(c.acl)| <= n
    ensures |When(cs)| <= 8 + (n + 2) * |cs|
  {
    hide Reference, Join;
    ConditionTextsLength(cs, n);
    JoinLength(ConditionTexts(cs), n + 1);
  }

  /** Conditions with a short reference. */
  predicate Brief(cs: seq<Condition>) {
    forall c :: c in cs ==> !c.acl.ProbeSource? && !c.acl.ImproperSource?
  }

  predicate BriefAction(action: Action) {
    match action
    case Deny(status) => status < 1000
    case Return(status) => status < 1000 && status != 204
    case RedirectTo(_) => false
    case RedirectPrefix(_) => false
    case _ => true
  }

  lemma BriefActionLength(action: Action, generation: string)
    requires BriefAction(action)
    ensures |ActionText(action, generation)| <= 80
  {
    hide TextOf;
    if action.Deny? || action.Return? {
      assert Pow10(3) == 1000;
      TextLength(action.status, 3);
    }
  }

  /** Everything but the lines that name hosts or addresses. */
  predicate Usual(line: Line) {
    match line
    case Define(acl) => !acl.FrontendOrigin? && !acl.ApiOrigin? && (acl.ProbeValue? ==> |acl.generation| <= 64)
    case Note(variable, text, cs) => |variable| <= 8 && |text| <= 16 && |cs| <= 4 && Brief(cs)
    case Decide(rule) => BriefAction(rule.action) && |rule.conditions| <= 3 && Brief(rule.conditions)
    case Fixed(text) => |text| <= USUAL
  }

  const USUAL := 170

  lemma MethodsLength()
    ensures |Join(METHODS)| <= 56
  {
    JoinLength(METHODS, 7);
  }

  lemma TestLength(acl: Acl, routing: Routing)
    requires Usual(Define(acl))
    ensures |Test(acl, routing)| <= 110
  {
    MethodsLength();
    hide Join;
    assert |CHALLENGE_PREFIX| == 27;
  }

  lemma UsualLength(line: Line, s: Spec)
    requires Usual(line) && (line.Define? ==> !line.acl.ProbeSource? && !line.acl.ImproperSource?)
    ensures |PrintLine(line, s)| <= USUAL
  {
    hide Test, ActionText, When, Reference;
    match line
    case Define(acl) => TestLength(acl, s.routing);
    case Note(_, _, cs) => WhenLength(cs, 23);
    case Decide(rule) =>
      BriefActionLength(rule.action, s.generation);
      WhenLength(rule.conditions, 23);
    case Fixed(_) =>
  }

  lemma {:induction false} LinesLength(lines: seq<Line>, s: Spec, n: nat)
    requires forall l :: l in lines ==> |PrintLine(l, s)| <= n
    ensures |PrintLines(lines, s)| <= n * |lines|
  {
    hide PrintLine;
    if lines != [] {
      var rest := lines[1..];
      LinesLength(rest, s, n);
      assert lines[0] in lines;
      assert |PrintLines(lines, s)| == |PrintLine(lines[0], s)| + |PrintLines(rest, s)|;
      OneMore(n, |rest|);
    }
  }

  lemma {:induction false} PrintAppend(a: seq<Line>, b: seq<Line>, s: Spec)
    ensures |PrintLines(a + b, s)| == |PrintLines(a, s)| + |PrintLines(b, s)|
  {
    hide PrintLine;
    if a == [] {
      assert a + b == b;
    } else {
      assert (a + b)[0] == a[0] && (a + b)[1..] == a[1..] + b;
      PrintAppend(a[1..], b, s);
    }
  }

  /** Lines without names or addresses. */
  predicate AllUsual(lines: seq<Line>) {
    forall l :: l in lines ==> Usual(l) && (l.Define? ==> !Inline(l.acl))
  }

  lemma UsualLinesLength(lines: seq<Line>, s: Spec)
    requires AllUsual(lines)
    ensures |PrintLines(lines, s)| <= USUAL * |lines|
  {
    hide PrintLine, PrintLines, Usual;
    forall l | l in lines ensures |PrintLine(l, s)| <= USUAL {
      UsualLength(l, s);
    }
    LinesLength(lines, s, USUAL);
  }

  lemma RuleLength(rule: Rule, s: Spec, action: nat, reference: nat)
    requires |ActionText(rule.action, s.generation)| <= action
    requires forall c :: c in rule.conditions ==> |Reference(c.acl)| <= reference
    ensures |PrintLine(Decide(rule), s)| <= action + 13 + (reference + 2) * |rule.conditions|
  {
    hide ActionText, Reference, When;
    WhenLength(rule.conditions, reference);
  }

  const ORIGIN_LINE := 840
  const PROBE_LINE := 2600
  const REDIRECT_LINE := 410

  lemma OriginsLength(s: Spec)
    ensures |PrintLines(OriginDefinitions(), s)| <= ORIGIN_LINE * 2
  {
    hide PrintLines, Reference, OriginTest;
    var f, a := s.routing.frontendHost, s.routing.apiHost;
    assert |f| <= 253 && |a| <= 253;
    assert Test(FrontendOrigin, s.routing) == OriginTest(f) && Test(ApiOrigin, s.routing) == OriginTest(a);
    LinesLength(OriginDefinitions(), s, ORIGIN_LINE);
  }

  predicate Probed(s: Spec) {
    && |s.generation| <= 64 && |s.probeSources| <= MAX_ROWS + 2
    && forall t :: t in s.probeSources ==> |t| <= MAX_ADDRESS_TEXT
  }

  lemma SourcesLength(s: Spec)
    requires Probed(s)
    ensures |Reference(ProbeSource(s.probeSources))| <= 470
  {
    hide Join;
    JoinLength(s.probeSources, MAX_ADDRESS_TEXT);
    OneMore(MAX_ADDRESS_TEXT + 1, |s.probeSources|);
  }

  lemma ProbeActionLength(generation: string)
    requires |generation| <= 64
    ensures |ActionText(Return(204), generation)| <= 150
  {
  }

  lemma ProbeLength(s: Spec)
    requires Probed(s)
    ensures |PrintLines(ProbeAnswer(s), s)| <= PROBE_LINE
  {
    hide PrintLines, PrintLine, Reference, ActionText, Probed;
    SourcesLength(s);
    assert |s.generation| <= 64 by { ProbedGeneration(s); }
    ProbeActionLength(s.generation);
    var rule := ProbeAnswer(s)[0].rule;
    RuleLength(rule, s, 150, 470);
    LinesLength(ProbeAnswer(s), s, PROBE_LINE);
  }

  lemma ProbedGeneration(s: Spec)
    requires Probed(s)
    ensures |s.generation| <= 64
  {
  }

  lemma RedirectActionLength(host: string, generation: string)
    requires |host| <= 253
    ensures |ActionText(RedirectTo("https://" + host + "/"), generation)| <= 320
    ensures |ActionText(RedirectPrefix("https://" + host), generation)| <= 320
    ensures |ActionText(Deny(404), generation)| <= 320
  {
    hide TextOf;
    assert Pow10(3) == 1000;
    TextLength(404, 3);
  }

  lemma RedirectsLength(s: Spec)
    ensures |PrintLines(RedirectLines(s), s)| <= REDIRECT_LINE * 5
  {
    hide PrintLines, PrintLine, ActionText, Reference;
    assert |s.routing.frontendHost| <= 253 && |s.routing.apiHost| <= 253;
    RedirectActionLength(s.routing.frontendHost, s.generation);
    RedirectActionLength(s.routing.apiHost, s.generation);
    forall l | l in RedirectLines(s) ensures |PrintLine(l, s)| <= REDIRECT_LINE {
      RuleLength(l.rule, s, 320, 23);
    }
    LinesLength(RedirectLines(s), s, REDIRECT_LINE);
  }

  lemma NativeLength(s: Spec)
    ensures |PrintLines(NativeLines(s), s)| <= USUAL * 2
  {
    hide PrintLines, PrintLine, ActionText, Reference;
    BriefActionLength(Deny(400), s.generation);
    forall l | l in NativeLines(s) ensures |PrintLine(l, s)| <= USUAL {
      RuleLength(l.rule, s, 80, 41);
    }
    LinesLength(NativeLines(s), s, USUAL);
  }

  lemma HeadersLength(s: Spec)
    ensures |PrintLines(HeaderLines(), s)| <= 220 * 3
  {
    hide PrintLines, Sanitization, CanonicalSource, CanonicalTransport;
    LinesLength(HeaderLines(), s, 220);
  }

  lemma OpeningUsual()
    ensures AllUsual(OpeningLines()) && |OpeningLines()| <= 3
  {
  }

  lemma MethodUsual()
    ensures AllUsual(MethodLines()) && |MethodLines()| <= 4
  {
  }

  lemma RewriteUsual(s: Spec)
    ensures AllUsual(RewriteLines(s)) && |RewriteLines(s)| <= 1
  {
  }

  lemma FormUsual()
    ensures AllUsual(FormLines()) && |FormLines()| <= 5
  {
  }

  lemma HostUsual()
    ensures AllUsual(HostLines()) && |HostLines()| <= 5
  {
  }

  lemma OriginUsual()
    ensures AllUsual(OriginLines()) && |OriginLines()| <= 4
  {
  }

  lemma LengthUsual()
    ensures AllUsual(LengthLines()) && |LengthLines()| <= 2
  {
  }

  lemma GuardsUsual()
    ensures AllUsual(GuardDefinitions()) && |GuardDefinitions()| <= 5
  {
  }

  lemma GuardUsual()
    ensures AllUsual(GuardLines()) && |GuardLines()| <= 5
  {
  }

  lemma ProbeUsual(s: Spec)
    requires |s.generation| <= 64
    ensures AllUsual(ProbeLines(s)) && |ProbeLines(s)| <= 5
  {
  }

  lemma AcmeUsual(s: Spec)
    ensures AllUsual(AcmeLines(s)) && |AcmeLines(s)| <= 2
  {
  }

  lemma ProductUsual(s: Spec)
    ensures AllUsual(ProductLines(s)) && |ProductLines(s)| <= 3
  {
    hide StrictTransport;
  }

  lemma AdmissionLength(s: Spec)
    ensures |PrintLines(AdmissionLines(), s)| <= USUAL * 16 + ORIGIN_LINE * 2
  {
    FormUsual();
    HostUsual();
    OriginUsual();
    LengthUsual();
    hide PrintLines, AllUsual, FormLines, HostLines, OriginDefinitions, OriginLines, LengthLines;
    PrintAppend(FormLines() + HostLines() + OriginDefinitions() + OriginLines(), LengthLines(), s);
    PrintAppend(FormLines() + HostLines() + OriginDefinitions(), OriginLines(), s);
    PrintAppend(FormLines() + HostLines(), OriginDefinitions(), s);
    PrintAppend(FormLines(), HostLines(), s);
    UsualLinesLength(FormLines(), s);
    UsualLinesLength(HostLines(), s);
    OriginsLength(s);
    UsualLinesLength(OriginLines(), s);
    UsualLinesLength(LengthLines(), s);
  }

  lemma SeamLength(s: Spec)
    ensures |PrintLines(SeamLines(s), s)| <= USUAL * 10 + REDIRECT_LINE * 5
  {
    GuardsUsual();
    GuardUsual();
    hide PrintLines, AllUsual, GuardDefinitions, GuardLines, RedirectLines;
    PrintAppend(GuardDefinitions() + GuardLines(), RedirectLines(s), s);
    PrintAppend(GuardDefinitions(), GuardLines(), s);
    UsualLinesLength(GuardDefinitions(), s);
    UsualLinesLength(GuardLines(), s);
    RedirectsLength(s);
    NothingToPrint(s);
  }

  lemma NothingToPrint(s: Spec)
    ensures PrintLines([], s) == ""
  {
  }

  lemma ProbesLength(s: Spec)
    requires Probed(s)
    ensures |PrintLines(ProbeLines(s) + ProbeAnswer(s), s)| <= USUAL * 5 + PROBE_LINE
  {
    ProbedGeneration(s);
    ProbeUsual(s);
    hide PrintLines, AllUsual, ProbeLines, ProbeAnswer, Probed;
    PrintAppend(ProbeLines(s), ProbeAnswer(s), s);
    UsualLinesLength(ProbeLines(s), s);
    ProbeLength(s);
  }

  lemma EdgesLength(s: Spec)
    ensures |PrintLines(OpeningLines() + NativeLines(s) + MethodLines() + RewriteLines(s), s)| <= USUAL * 10
    ensures |PrintLines(AcmeLines(s), s)| + |PrintLines(ProductLines(s), s)| <= USUAL * 5
  {
    OpeningUsual();
    MethodUsual();
    RewriteUsual(s);
    AcmeUsual(s);
    ProductUsual(s);
    hide PrintLines, AllUsual, OpeningLines, NativeLines, MethodLines, RewriteLines, AcmeLines, ProductLines;
    PrintAppend(OpeningLines() + NativeLines(s) + MethodLines(), RewriteLines(s), s);
    PrintAppend(OpeningLines() + NativeLines(s), MethodLines(), s);
    PrintAppend(OpeningLines(), NativeLines(s), s);
    UsualLinesLength(OpeningLines(), s);
    NativeLength(s);
    UsualLinesLength(MethodLines(), s);
    UsualLinesLength(RewriteLines(s), s);
    UsualLinesLength(AcmeLines(s), s);
    UsualLinesLength(ProductLines(s), s);
  }

  lemma IngressStartLength(s: Spec, probed: bool)
    requires Probed(s)
    ensures |PrintLines(OpeningLines() + NativeLines(s) + MethodLines() + RewriteLines(s) + AdmissionLines()
                        + (if probed then ProbeLines(s) + ProbeAnswer(s) else []), s)| <= 10240
  {
    hide PrintLines, OpeningLines, NativeLines, MethodLines, RewriteLines, AdmissionLines, ProbeLines, ProbeAnswer, Probed;
    var probe := if probed then ProbeLines(s) + ProbeAnswer(s) else [];
    var toRewrite := OpeningLines() + NativeLines(s) + MethodLines() + RewriteLines(s);
    PrintAppend(toRewrite + AdmissionLines(), probe, s);
    PrintAppend(toRewrite, AdmissionLines(), s);
    EdgesLength(s);
    AdmissionLength(s);
    ProbesLength(s);
    NothingToPrint(s);
  }

  /** The ingress frontend's rules, whatever the specification. */
  lemma IngressLength(s: Spec, probed: bool)
    requires Probed(s)
    ensures |PrintLines(Lines(s, probed), s)| <= 16384
  {
    hide PrintLines, OpeningLines, NativeLines, MethodLines, RewriteLines, AdmissionLines, ProbeLines, ProbeAnswer, Probed;
    hide HeaderLines, SeamLines, AcmeLines, ProductLines;
    var start := OpeningLines() + NativeLines(s) + MethodLines() + RewriteLines(s) + AdmissionLines()
                 + (if probed then ProbeLines(s) + ProbeAnswer(s) else []);
    assert Lines(s, probed) == start + HeaderLines() + SeamLines(s) + AcmeLines(s) + ProductLines(s);
    PrintAppend(start + HeaderLines() + SeamLines(s) + AcmeLines(s), ProductLines(s), s);
    PrintAppend(start + HeaderLines() + SeamLines(s), AcmeLines(s), s);
    PrintAppend(start + HeaderLines(), SeamLines(s), s);
    PrintAppend(start, HeaderLines(), s);
    IngressStartLength(s, probed);
    EdgesLength(s);
    HeadersLength(s);
    SeamLength(s);
  }

  /** Addresses and peers are bounded in number and in length. */
  predicate RowBounded(row: Row) {
    && |row.address| <= MAX_ADDRESS_TEXT && row.port <= 65535 && |row.peers| <= MAX_PEERS
    && forall p :: p in row.peers ==> |p| <= MAX_ADDRESS_TEXT
  }

  lemma EndpointLength(row: Row)
    requires |row.address| <= MAX_ADDRESS_TEXT && row.port <= 65535
    ensures |Endpoint(row)| <= MAX_ADDRESS_TEXT + 8
  {
    hide TextOf;
    assert Pow10(5) == 100000;
    TextLength(row.port, 5);
  }

  lemma {:induction false} BindsLength(rows: seq<Row>, ha: bool)
    requires forall row :: row in rows ==> |row.address| <= MAX_ADDRESS_TEXT && row.port <= 65535
    ensures |Binds(rows, ha)| <= USUAL * |rows|
  {
    hide Endpoint, Version6Only, TlsOptions;
    if rows != [] {
      EndpointLength(rows[0]);
      assert |BindLine(rows[0], ha)| <= USUAL;
      BindsLength(rows[1..], ha);
    }
  }

  const PREFACE_TEXT := 2500

  lemma PrefaceBindLength(row: Row, index: nat)
    requires RowBounded(row) && index < 10
    ensures |PrefaceBind(row, index)| <= 120
  {
    EndpointLength(row);
    hide Endpoint, Version6Only;
    assert |TextOf(index)| == 1;
  }

  lemma PeerTestLength(row: Row)
    requires RowBounded(row)
    ensures |PeerTest(row)| <= 1590
  {
    hide Join;
    JoinLength(row.peers, MAX_ADDRESS_TEXT);
    OneMore(MAX_ADDRESS_TEXT + 1, |row.peers|);
  }

  lemma PrefaceLength(row: Row, index: nat)
    requires RowBounded(row) && index < 10
    ensures |PrefaceSection(row, index)| <= PREFACE_TEXT
  {
    hide PrefaceBind, PeerTest, HeaderTests, LengthTests, HeaderVerdicts, PrefaceLog, ToDecoder;
    PrefaceBindLength(row, index);
    PeerTestLength(row);
  }

  lemma {:induction false} PrefacesLength(rows: seq<Row>, index: nat)
    requires (forall row :: row in rows ==> RowBounded(row)) && index + |rows| <= 10
    ensures |PrefaceSections(rows, index)| <= PREFACE_TEXT * |rows|
  {
    hide PrefaceSection, RowBounded;
    if rows != [] {
      PrefaceLength(rows[0], index);
      PrefacesLength(rows[1..], index + 1);
    }
  }

  lemma DecodersLength(ts: seq<Transport>)
    requires |ts| <= 2
    ensures |DecoderBackends(ts)| <= 200
  {
    hide DecoderBackend;
    if ts != [] {
      assert DecoderBackends(ts) == DecoderBackend(ts[0]) + DecoderBackends(ts[1..]);
      if |ts| == 2 {
        assert DecoderBackends(ts[1..]) == DecoderBackend(ts[1]) + DecoderBackends([]);
      }
    }
  }

  lemma PrefaceTextLength(d: Direct)
    requires |d.rows| <= MAX_ROWS && forall row :: row in d.rows ==> RowBounded(row)
    ensures |PrefaceText(d)| <= 20200
  {
    hide PrefaceSections, DecoderBackends, RowBounded, Transports;
    if d.topology.Ha? {
      PrefacesLength(d.rows, 0);
      DecodersLength(Transports(d.rows));
    }
  }

  lemma SpecProbed(d: Direct, generation: string)
    requires |d.rows| <= MAX_ROWS && |generation| <= 64 && forall row :: row in d.rows ==> |row.address| <= MAX_ADDRESS_TEXT
    ensures Probed(SpecOf(d, generation))
  {
    hide SortedTexts;
    assert |"127.0.0.1"| == 9 && |"::1"| == 3;
    var texts := ["127.0.0.1", "::1"] + ListenerAddresses(d.rows);
    forall t | t in SortedTexts(texts) ensures |t| <= MAX_ADDRESS_TEXT {
      assert t in texts;
    }
  }

  lemma BoundRowsBounded(d: Direct)
    requires |d.rows| <= MAX_ROWS && forall row :: row in d.rows ==> RowBounded(row)
    ensures |BoundRows(d)| <= MAX_ROWS
    ensures forall row :: row in BoundRows(d) ==> |row.address| <= MAX_ADDRESS_TEXT && row.port <= 65535
  {
    hide Decoders, Transports;
    assert |"127.0.0.1"| == 9;
  }

  lemma BindsFit(d: Direct)
    requires |d.rows| <= MAX_ROWS && forall row :: row in d.rows ==> RowBounded(row)
    ensures |Binds(BoundRows(d), d.topology.Ha?)| <= 1360
  {
    hide Binds, BoundRows, RowBounded;
    BoundRowsBounded(d);
    BindsLength(BoundRows(d), d.topology.Ha?);
  }

  lemma IngressFits(d: Direct, generation: string, probed: bool)
    requires |d.rows| <= MAX_ROWS && |generation| <= 64 && forall row :: row in d.rows ==> RowBounded(row)
    ensures |PrintLines(Lines(SpecOf(d, generation), probed), SpecOf(d, generation))| <= 16384
  {
    SpecProbed(d, generation);
    hide SpecOf, Lines, PrintLines, Probed;
    IngressLength(SpecOf(d, generation), probed);
  }

  const BODY_TEXT := 40960

  lemma BodyOfLength(d: Direct, s: Spec, probed: bool)
    requires |PrintLines(Lines(s, probed), s)| <= 16384 && |Binds(BoundRows(d), d.topology.Ha?)| <= 1360
    requires |PrefaceText(d)| <= 20200
    ensures |BodyOf(d, s, probed)| <= BODY_TEXT
  {
    hide PrintLines, Lines, Binds, BoundRows, PrefaceText, Preamble, ProductBackends, AcmeBackend;
  }

  /** No specification with bounded rows has a longer text after its first line. */
  lemma BodyLength(d: Direct, generation: Option<string>)
    requires |d.rows| <= MAX_ROWS && forall row :: row in d.rows ==> RowBounded(row)
    requires generation.Some? ==> |generation.value| <= 64
    ensures |Body(d, generation)| <= BODY_TEXT
  {
    hide SpecOf, PrintLines, Lines, Binds, BoundRows, PrefaceText, RowBounded, BodyOf;
    var g := if generation.Some? then generation.value else "";
    IngressFits(d, g, generation.Some?);
    BindsFit(d);
    PrefaceTextLength(d);
    BodyOfLength(d, SpecOf(d, g), generation.Some?);
  }
}
