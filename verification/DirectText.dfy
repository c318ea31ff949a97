/**
  The text of a DIRECT configuration after its first line, directive by directive
  (scripts/haproxy_direct_contract.py, scripts/haproxy_base_contract.py). Rules and the conditions
  they use are printed from `DirectRouting`; everything that decides nothing is fixed text.
 */
module DirectText {
  import opened Common
  import opened Decimals
  import opened DirectSpec
  import opened DirectRouting

  // ---------- Conditions and actions ----------

  function Join(texts: seq<string>): string {
    if texts == [] then "" else if |texts| == 1 then texts[0] else texts[0] + " " + Join(texts[1..])
  }

  /** Conditions written out where they are used, instead of being defined under a name first. */
  predicate Inline(acl: Acl) {
    acl.ImproperSource? || acl.SourcePort? || acl.Http2? || acl.TooLong? || acl.ProbeSource? || acl.Tls?
  }

  function Reference(acl: Acl): (text: string)
    ensures !acl.ProbeSource? ==> |text| <= 41
    ensures !acl.ProbeSource? && !acl.ImproperSource? ==> |text| <= 23
  {
    match acl
    case ImproperSource => "{ src 0.0.0.0 :: 224.0.0.0/4 ff00::/8 }"
    case SourcePort => "{ src_port gt 0 }"
    case SupportedMethod => "supported_method"
    case Http2 => "{ req.ver 2.0 }"
    case OriginForm => "origin_form"
    case OptionsMethod => "options_star"
    case StarTarget => "star_target"
    case OneHost => "one_host"
    case FrontendOrigin => "frontend_origin"
    case ApiOrigin => "api_origin"
    case TooLong => "{ url,length gt 8192 }"
    case ProbeMethod => "generation_probe"
    case GenerationPath => "generation_path"
    case OneProbe => "generation_header"
    case ProbeValue(_) => "generation_value"
    case ProbeSource(sources) => "{ src " + Join(sources) + " }"
    case Ambiguous => "acme_ambiguous"
    case Prefix => "acme_prefix"
    case Target => "acme_target"
    case GetMethod => "acme_method"
    case Tls => "{ ssl_fc }"
  }

  function OriginTest(host: string): (text: string)
    ensures |text| <= 40 + 3 * |host|
  {
    "req.hdr(host),lower -m str " + host + " " + host + ":80 " + host + ":443"
  }

  /** What a named condition tests. */
  function Test(acl: Acl, routing: Routing): string {
    match acl
    case SupportedMethod => "method " + Join(METHODS)
    case OriginForm => "url_beg /"
    case OptionsMethod => "method OPTIONS"
    case StarTarget => "url -m str *"
    case OneHost => "req.hdr_cnt(host) eq 1"
    case FrontendOrigin => OriginTest(routing.frontendHost)
    case ApiOrigin => OriginTest(routing.apiHost)
    case ProbeMethod => "method GET"
    case GenerationPath => "path -m str /_secpal/proxy-generation"
    case OneProbe => "req.hdr_cnt(X-SecPal-Runtime-Probe) eq 1"
    case ProbeValue(generation) => "req.hdr(X-SecPal-Runtime-Probe) -m str " + generation
    case Ambiguous => "path,url_dec -i -m beg /" + CHALLENGE_PREFIX
    case Prefix => "path,url_dec -i -m beg " + CHALLENGE_PREFIX
    case Target => "url -m reg ^/\\.well-known/acme-challenge/[A-Za-z0-9_-]{43}$"
    case GetMethod => "method GET"
    case _ => ""
  }

  function ConditionText(c: Condition): string {
    (if c.Is? then "" else "!") + Reference(c.acl)
  }

  function ConditionTexts(cs: seq<Condition>): (texts: seq<string>)
    ensures |texts| == |cs|
  {
    if cs == [] then [] else [ConditionText(cs[0])] + ConditionTexts(cs[1..])
  }

  /** A single negation is written `unless`. */
  function When(cs: seq<Condition>): string {
    if cs == [] then ""
    else if |cs| == 1 && cs[0].Not? then " unless " + Reference(cs[0].acl)
    else " if " + Join(ConditionTexts(cs))
  }

  function BackendName(b: Backend): (text: string)
    ensures |text| <= 15
  {
    match b
    case Frontend => "secpal_frontend"
    case Api => "secpal_api"
    case Acme => "secpal_acme"
  }

  function ActionText(action: Action, generation: string): string {
    match action
    case Deny(status) => "http-request deny deny_status " + TextOf(status)
    case Return(status) =>
      if status == 204 then
        "http-request return status 204 hdr X-SecPal-Generation " + generation + " hdr X-SecPal-Worker %pid"
      else "http-request return status " + TextOf(status) + " content-type text/plain string \"URI too long\""
    case RedirectTo(location) => "http-request redirect code 308 location " + location
    case RedirectPrefix(prefix) => "http-request redirect code 308 prefix " + prefix
    case SetUri => "http-request set-uri %[pathq]"
    case UseBackend(backend) => "use_backend " + BackendName(backend)
  }

  // ---------- Lines ----------

  /** `Note` records a fact about the request for the log; `Fixed` is text that decides nothing. */
  datatype Line =
    | Define(acl: Acl)
    | Note(variable: string, text: string, conditions: seq<Condition>)
    | Decide(rule: Rule)
    | Fixed(fixed: string)

  function PrintLine(line: Line, s: Spec): string {
    match line
    case Define(acl) => "    acl " + Reference(acl) + " " + Test(acl, s.routing) + "\n"
    case Note(variable, text, cs) => "    http-request set-var(txn." + variable + ") str(" + text + ")" + When(cs) + "\n"
    case Decide(rule) => "    " + ActionText(rule.action, s.generation) + When(rule.conditions) + "\n"
    case Fixed(text) => text
  }

  function PrintLines(lines: seq<Line>, s: Spec): string {
    if lines == [] then "" else PrintLine(lines[0], s) + PrintLines(lines[1..], s)
  }

  function OpeningLines(): seq<Line> {
    [Note("security", "rejected", []), Note("method", "unavailable", []), Note("origin", "unavailable", [])]
  }

  function NativeLines(s: Spec): seq<Line> {
    if s.ha then [Decide(Rule(Deny(400), [Is(ImproperSource)])), Decide(Rule(Deny(400), [Not(SourcePort)]))] else []
  }

  function MethodLines(): seq<Line> {
    [Define(SupportedMethod), Note("security", "method_rejected", [Not(SupportedMethod)]),
     Decide(Rule(Deny(405), [Not(SupportedMethod)])), Fixed("    http-request set-var(txn.method) method\n")]
  }

  /** HTTP/2 presents its target as an absolute URI; its path and query are restored first. */
  function RewriteLines(s: Spec): seq<Line> {
    if s.lifecycle.Legacy? then [] else [Decide(Rule(SetUri, [Is(Http2)]))]
  }

  function FormLines(): seq<Line> {
    [Define(OriginForm), Define(OptionsMethod), Define(StarTarget),
     Note("security", "target_rejected", [Not(OriginForm), Not(OptionsMethod)]),
     Decide(Rule(Deny(400), [Not(OriginForm), Not(OptionsMethod)]))]
  }

  function HostLines(): seq<Line> {
    [Note("security", "target_rejected", [Not(OriginForm), Not(StarTarget)]),
     Decide(Rule(Deny(400), [Not(OriginForm), Not(StarTarget)])),
     Define(OneHost), Note("security", "host_rejected", [Not(OneHost)]), Decide(Rule(Deny(400), [Not(OneHost)]))]
  }

  function OriginDefinitions(): seq<Line> {
    [Define(FrontendOrigin), Define(ApiOrigin)]
  }

  function OriginLines(): seq<Line> {
    [Note("security", "origin_rejected", [Not(FrontendOrigin), Not(ApiOrigin)]),
     Decide(Rule(Deny(421), [Not(FrontendOrigin), Not(ApiOrigin)])),
     Note("origin", "frontend", [Is(FrontendOrigin)]), Note("origin", "api", [Is(ApiOrigin)])]
  }

  function LengthLines(): seq<Line> {
    [Note("security", "uri_rejected", [Is(TooLong)]), Decide(Rule(Return(414), [Is(TooLong)]))]
  }

  function AdmissionLines(): seq<Line> {
    FormLines() + HostLines() + OriginDefinitions() + OriginLines() + LengthLines()
  }

  function ProbeConditions(s: Spec): seq<Condition> {
    [Is(ProbeMethod), Is(GenerationPath), Is(OneProbe), Is(ProbeValue(s.generation))]
  }

  /** The private answer about the running generation. */
  function ProbeLines(s: Spec): seq<Line> {
    [Define(ProbeMethod), Define(GenerationPath), Define(OneProbe), Define(ProbeValue(s.generation)),
     Note("security", "generation_probe", ProbeConditions(s))]
  }

  function ProbeAnswer(s: Spec): seq<Line> {
    if s.lifecycle.Legacy? then
      [Decide(Rule(Return(204), [Is(ProbeMethod), Is(GenerationPath), Is(OneProbe), Is(ProbeValue(s.generation))]))]
    else
      [Decide(Rule(Return(204), [Is(ProbeMethod), Is(GenerationPath), Is(OneProbe), Is(ProbeValue(s.generation)),
                                 Is(ProbeSource(s.probeSources))]))]
  }

  /** No inbound forwarding header survives. */
  function Sanitization(): (text: string)
    ensures |text| <= 220
  {
    "    http-request del-header Forwarded\n"
    + "    http-request del-header X-Forwarded- -m beg\n"
    + "    http-request del-header X-Real-IP\n"
    + "    http-request del-header X-SecPal- -m beg\n"
    + "    http-request del-header X-Request-ID\n"
  }

  function CanonicalSource(): (text: string)
    ensures |text| <= 190
  {
    "    http-request set-header X-Forwarded-For %[src]\n"
    + "    http-request set-header X-Forwarded-Host %[req.hdr(host),lower,field(1,:)]\n"
    + "    http-request set-header X-Forwarded-Proto http\n"
  }

  function CanonicalTransport(): (text: string)
    ensures |text| <= 200
  {
    "    http-request set-header X-Forwarded-Port 80\n"
    + "    http-request set-header X-Forwarded-Proto https if { ssl_fc }\n"
    + "    http-request set-header X-Forwarded-Port 443 if { ssl_fc }\n"
  }

  function HeaderLines(): seq<Line> {
    [Fixed(Sanitization()), Fixed(CanonicalSource()), Fixed(CanonicalTransport())]
  }

  /** The certificate challenge's own paths, guarded whatever the transport. */
  function GuardDefinitions(): seq<Line> {
    [Define(Prefix), Define(Ambiguous), Define(Target), Define(GetMethod), Decide(Rule(Deny(400), [Is(Ambiguous)]))]
  }

  function GuardLines(): seq<Line> {
    [Note("security", "acme_rejected", [Is(Prefix), Not(Target)]), Decide(Rule(Deny(400), [Is(Prefix), Not(Target)])),
     Decide(Rule(Deny(405), [Is(Prefix), Not(GetMethod)])),
     Note("security", "acme_challenge", [Is(Target), Is(GetMethod), Not(Tls)]),
     Note("security", "https_redirect", [Not(Target), Not(Tls)])]
  }

  function RedirectLines(s: Spec): seq<Line> {
    [Decide(Rule(RedirectTo("https://" + s.routing.frontendHost + "/"), [Is(FrontendOrigin), Is(StarTarget), Not(Tls)])),
     Decide(Rule(RedirectTo("https://" + s.routing.apiHost + "/"), [Is(ApiOrigin), Is(StarTarget), Not(Tls)])),
     Decide(Rule(RedirectPrefix("https://" + s.routing.frontendHost), [Is(FrontendOrigin), Not(Target), Not(Tls)])),
     Decide(Rule(RedirectPrefix("https://" + s.routing.apiHost), [Is(ApiOrigin), Not(Target), Not(Tls)])),
     Decide(Rule(Deny(404), [Is(Target), Is(Tls)]))]
  }

  function SeamLines(s: Spec): seq<Line> {
    if s.lifecycle.Legacy? then [] else GuardDefinitions() + GuardLines() + RedirectLines(s)
  }

  function AcmeLines(s: Spec): seq<Line> {
    if s.lifecycle.Legacy? then [Note("security", "accepted", [])]
    else [Note("security", "accepted", []), Decide(Rule(UseBackend(Acme), [Is(Target), Is(GetMethod), Not(Tls)]))]
  }

  function StrictTransport(): (text: string)
    ensures |text| <= 100
  {
    "    http-response set-header Strict-Transport-Security \"max-age=86400\" if { ssl_fc }\n"
  }

  function ProductLines(s: Spec): seq<Line> {
    var products := [Decide(Rule(UseBackend(Frontend), [Is(FrontendOrigin)])),
                     Decide(Rule(UseBackend(Api), [Is(ApiOrigin)]))];
    if s.lifecycle.Hsts? then
      [Fixed(StrictTransport())] + products
    else products
  }

  /** The whole ingress frontend, from its first rule on; the probe only once the generation is known. */
  function Lines(s: Spec, probed: bool): seq<Line> {
    OpeningLines() + NativeLines(s) + MethodLines() + RewriteLines(s) + AdmissionLines()
    + (if probed then ProbeLines(s) + ProbeAnswer(s) else [])
    + HeaderLines() + SeamLines(s) + AcmeLines(s) + ProductLines(s)
  }

  // ---------- The rules among the lines ----------

  function RulesOf(lines: seq<Line>): seq<Rule> {
    if lines == [] then [] else RuleAt(lines, 0) + RulesOf(lines[1..])
  }

  function RuleAt(lines: seq<Line>, i: nat): (rules: seq<Rule>)
    ensures i >= |lines| ==> rules == []
  {
    if i < |lines| && lines[i].Decide? then [lines[i].rule] else []
  }

  /** The lines from the k-th on. */
  function From(lines: seq<Line>, k: nat): (rest: seq<Line>)
    ensures k == 0 ==> rest == lines
    ensures k >= |lines| ==> rest == []
  {
    if k < |lines| then lines[k..] else []
  }

  lemma RulesFrom(lines: seq<Line>, k: nat)
    ensures RulesOf(From(lines, k)) == RuleAt(lines, k) + RulesOf(From(lines, k + 1))
  {
    if k < |lines| {
      assert lines[k..][0] == lines[k] && lines[k..][1..] == lines[k + 1..] == From(lines, k + 1);
    }
  }

  lemma {:induction false} RulesAppend(a: seq<Line>, b: seq<Line>)
    ensures RulesOf(a + b) == RulesOf(a) + RulesOf(b)
  {
    hide RulesOf;
    if a == [] {
      NoLines();
      assert a + b == b;
    } else {
      var rest, all := a[1..], a + b;
      RulesAppend(rest, b);
      RulesFrom(a, 0);
      RulesFrom(all, 0);
      assert all[1..] == rest + b && RuleAt(all, 0) == RuleAt(a, 0);
      assert From(a, 1) == rest && From(all, 1) == rest + b;
    }
  }

  lemma NoLines()
    ensures RulesOf([]) == []
  {
  }

  lemma FewRules(lines: seq<Line>)
    requires |lines| <= 5
    ensures RulesOf(lines) ==
            RuleAt(lines, 0) + (RuleAt(lines, 1) + (RuleAt(lines, 2) + (RuleAt(lines, 3) + RuleAt(lines, 4))))
  {
    hide RulesOf, RuleAt, From;
    RulesFrom(lines, 0);
    RulesFrom(lines, 1);
    RulesFrom(lines, 2);
    RulesFrom(lines, 3);
    LastRule(lines);
  }

  lemma LastRule(lines: seq<Line>)
    requires |lines| <= 5
    ensures RulesOf(From(lines, 4)) == RuleAt(lines, 4)
  {
    hide RuleAt, From;
    RulesFrom(lines, 4);
    assert From(lines, 5) == [];
  }

  lemma AdmissionRendered()
    ensures RulesOf(AdmissionLines()) == AdmissionRules()
  {
    hide RulesOf, FormLines, HostLines, OriginDefinitions, OriginLines, LengthLines;
    RulesAppend(FormLines() + HostLines() + OriginDefinitions() + OriginLines(), LengthLines());
    RulesAppend(FormLines() + HostLines() + OriginDefinitions(), OriginLines());
    RulesAppend(FormLines() + HostLines(), OriginDefinitions());
    RulesAppend(FormLines(), HostLines());
    FormRendered();
    HostRendered();
    OriginRendered();
  }

  lemma FormRendered()
    ensures RulesOf(FormLines()) == [Rule(Deny(400), [Not(OriginForm), Not(OptionsMethod)])]
  {
    hide RulesOf;
    FewRules(FormLines());
  }

  lemma HostRendered()
    ensures RulesOf(HostLines()) ==
            [Rule(Deny(400), [Not(OriginForm), Not(StarTarget)]), Rule(Deny(400), [Not(OneHost)])]
  {
    hide RulesOf;
    FewRules(HostLines());
  }

  lemma OriginRendered()
    ensures RulesOf(OriginDefinitions()) == []
    ensures RulesOf(OriginLines()) == [Rule(Deny(421), [Not(FrontendOrigin), Not(ApiOrigin)])]
    ensures RulesOf(LengthLines()) == [Rule(Return(414), [Is(TooLong)])]
  {
    hide RulesOf;
    FewRules(OriginDefinitions());
    FewRules(OriginLines());
    FewRules(LengthLines());
  }

  lemma ProbeRendered(s: Spec)
    ensures RulesOf(ProbeLines(s) + ProbeAnswer(s)) == ProbeRules(s)
  {
    hide RulesOf;
    RulesAppend(ProbeLines(s), ProbeAnswer(s));
    FewRules(ProbeLines(s));
    FewRules(ProbeAnswer(s));
  }

  lemma SeamRendered(s: Spec)
    ensures RulesOf(SeamLines(s)) == SeamRules(s)
  {
    hide RulesOf, GuardDefinitions, GuardLines, RedirectLines;
    RulesAppend(GuardDefinitions() + GuardLines(), RedirectLines(s));
    RulesAppend(GuardDefinitions(), GuardLines());
    GuardRendered();
    RedirectRendered(s);
    NoLines();
  }

  lemma GuardRendered()
    ensures RulesOf(GuardDefinitions()) + RulesOf(GuardLines()) == GuardRules()
  {
    hide RulesOf;
    FewRules(GuardDefinitions());
    FewRules(GuardLines());
  }

  lemma RedirectRendered(s: Spec)
    ensures RulesOf(RedirectLines(s)) == RedirectRules(s)
  {
    hide RulesOf;
    FewRules(RedirectLines(s));
  }

  lemma BackendsRendered(s: Spec)
    ensures RulesOf(AcmeLines(s)) + RulesOf(ProductLines(s)) == BackendRules(s)
  {
    hide RulesOf, ProductLines;
    FewRules(AcmeLines(s));
    ProductsRendered(s);
  }

  lemma ProductsRendered(s: Spec)
    ensures RulesOf(ProductLines(s)) ==
            [Rule(UseBackend(Frontend), [Is(FrontendOrigin)]), Rule(UseBackend(Api), [Is(ApiOrigin)])]
  {
    hide RulesOf, StrictTransport;
    FewRules(ProductLines(s));
  }

  lemma OthersRendered(s: Spec)
    ensures RulesOf(NativeLines(s)) == NativeRules(s) && RulesOf(MethodLines()) == MethodRules()
    ensures RulesOf(RewriteLines(s)) == RewriteRules(s) && RulesOf(HeaderLines()) == []
  {
    hide RulesOf, Sanitization, CanonicalSource, CanonicalTransport;
    FewRules(NativeLines(s));
    FewRules(MethodLines());
    FewRules(RewriteLines(s));
    FewRules(HeaderLines());
  }

  /** The rules among the rendered lines are, in order, exactly those whose meaning `DirectRouting` proves. */
  lemma RenderedRules(s: Spec)
    ensures RulesOf(Lines(s, true)) == Rules(s)
  {
    hide RulesOf, NativeLines, MethodLines, RewriteLines, AdmissionLines, ProbeLines, ProbeAnswer, HeaderLines, SeamLines;
    hide AcmeLines, ProductLines, NativeRules, MethodRules, RewriteRules, AdmissionRules, ProbeRules, SeamRules, BackendRules;
    hide OpeningLines;
    var probe := ProbeLines(s) + ProbeAnswer(s);
    var toRewrite := OpeningLines() + NativeLines(s) + MethodLines() + RewriteLines(s);
    var toAdmission := toRewrite + AdmissionLines();
    RulesAppend(toAdmission + probe + HeaderLines() + SeamLines(s) + AcmeLines(s), ProductLines(s));
    RulesAppend(toAdmission + probe + HeaderLines() + SeamLines(s), AcmeLines(s));
    RulesAppend(toAdmission + probe + HeaderLines(), SeamLines(s));
    RulesAppend(toAdmission + probe, HeaderLines());
    RulesAppend(toAdmission, probe);
    RulesAppend(toRewrite, AdmissionLines());
    FirstRendered(s);
    AdmissionRendered();
    ProbeRendered(s);
    SeamRendered(s);
    BackendsRendered(s);
    assert Rules(s) == NativeRules(s) + MethodRules() + RewriteRules(s) + AdmissionRules() + ProbeRules(s) + SeamRules(s)
                       + (RulesOf(AcmeLines(s)) + RulesOf(ProductLines(s)));
    assert RulesOf(HeaderLines()) == [] by {
      OthersRendered(s);
    }
  }

  lemma FirstRendered(s: Spec)
    ensures RulesOf(OpeningLines() + NativeLines(s) + MethodLines() + RewriteLines(s)) ==
            NativeRules(s) + MethodRules() + RewriteRules(s)
  {
    hide RulesOf, NativeLines, MethodLines, RewriteLines, OpeningLines, NativeRules, MethodRules, RewriteRules;
    RulesAppend(OpeningLines() + NativeLines(s) + MethodLines(), RewriteLines(s));
    RulesAppend(OpeningLines() + NativeLines(s), MethodLines());
    RulesAppend(OpeningLines(), NativeLines(s));
    OthersRendered(s);
    OpeningRendered();
  }

  lemma OpeningRendered()
    ensures RulesOf(OpeningLines()) == []
  {
    hide RulesOf;
    FewRules(OpeningLines());
  }

  // ---------- Every named condition is defined before it is used ----------

  function ConditionsOf(line: Line): seq<Condition> {
    match line
    case Note(_, _, cs) => cs
    case Decide(rule) => rule.conditions
    case _ => []
  }

  predicate DefinedIn(acl: Acl, lines: seq<Line>) {
    Inline(acl) || Define(acl) in lines
  }

  /** Coming after `before`, the lines use only conditions defined earlier. */
  predicate Closed(before: seq<Line>, lines: seq<Line>) {
    forall i, c :: 0 <= i < |lines| && c in ConditionsOf(lines[i]) ==>
      DefinedIn(c.acl, before) || DefinedIn(c.acl, lines[..i])
  }

  lemma ClosedAppend(before: seq<Line>, a: seq<Line>, b: seq<Line>)
    requires Closed(before, a) && Closed(before + a, b)
    ensures Closed(before, a + b)
  {
    hide ConditionsOf;
    forall i, c | 0 <= i < |a + b| && c in ConditionsOf((a + b)[i])
      ensures DefinedIn(c.acl, before) || DefinedIn(c.acl, (a + b)[..i])
    {
      if i < |a| {
        assert (a + b)[..i] == a[..i] && (a + b)[i] == a[i];
      } else {
        assert (a + b)[..i] == a + b[..i - |a|] && (a + b)[i] == b[i - |a|];
      }
    }
  }

  lemma AdmissionClosed(before: seq<Line>)
    ensures Closed(before, AdmissionLines())
    ensures Define(StarTarget) in AdmissionLines()
    ensures Define(FrontendOrigin) in AdmissionLines() && Define(ApiOrigin) in AdmissionLines()
  {
    FormClosed(before);
    HostClosed(before + FormLines());
    OriginsClosed(before + (FormLines() + HostLines()));
    hide Closed, FormLines, HostLines, OriginDefinitions, OriginLines, LengthLines;
    assert before + (FormLines() + HostLines()) == before + FormLines() + HostLines();
    ClosedAppend(before, FormLines(), HostLines());
    var origins := OriginDefinitions() + OriginLines() + LengthLines();
    ClosedAppend(before, FormLines() + HostLines(), origins);
    assert AdmissionLines() == FormLines() + HostLines() + origins;
  }

  lemma FormClosed(before: seq<Line>)
    ensures Closed(before, FormLines())
    ensures Define(OriginForm) in FormLines() && Define(StarTarget) in FormLines()
  {
    var lines := FormLines();
    assert lines[0] in lines[..3] && lines[1] in lines[..3] && lines[2] in lines;
    assert lines[0] in lines[..4] && lines[1] in lines[..4];
  }

  lemma HostClosed(before: seq<Line>)
    requires Define(OriginForm) in before && Define(StarTarget) in before
    ensures Closed(before, HostLines())
  {
    var lines := HostLines();
    assert lines[2] in lines[..3] && lines[2] in lines[..4];
  }

  lemma OriginsClosed(before: seq<Line>)
    ensures Closed(before, OriginDefinitions() + OriginLines() + LengthLines())
    ensures Define(FrontendOrigin) in OriginDefinitions() && Define(ApiOrigin) in OriginDefinitions()
  {
    var a, b := OriginDefinitions(), OriginLines() + LengthLines();
    assert a[0] in a && a[1] in a;
    UsesOnly(before, a);
    UsesOnly(before + a, b);
    hide Closed;
    ClosedAppend(before, a, b);
    assert a + b == OriginDefinitions() + OriginLines() + LengthLines();
  }

  lemma UsesOnly(before: seq<Line>, lines: seq<Line>)
    requires forall i, c :: 0 <= i < |lines| && c in ConditionsOf(lines[i]) ==> DefinedIn(c.acl, before)
    ensures Closed(before, lines)
  {
  }

  lemma ProbeClosed(before: seq<Line>, s: Spec)
    ensures Closed(before, ProbeLines(s) + ProbeAnswer(s))
  {
    ProbeNamed(before, s);
    UsesOnly(before + ProbeLines(s), ProbeAnswer(s));
    hide Closed, ProbeLines, ProbeAnswer;
    ClosedAppend(before, ProbeLines(s), ProbeAnswer(s));
  }

  lemma ProbeNamed(before: seq<Line>, s: Spec)
    ensures Closed(before, ProbeLines(s))
    ensures forall c :: c in ProbeConditions(s) ==> Define(c.acl) in ProbeLines(s)
  {
    var lines := ProbeLines(s);
    var four := lines[..4];
    assert four[0] == Define(ProbeMethod) && four[1] == Define(GenerationPath) && four[2] == Define(OneProbe);
    assert four[3] == Define(ProbeValue(s.generation));
    assert lines[0] in lines && lines[1] in lines && lines[2] in lines && lines[3] in lines;
  }

  lemma GuardClosed(before: seq<Line>)
    ensures Closed(before, GuardDefinitions() + GuardLines())
    ensures Define(Target) in GuardDefinitions() && Define(GetMethod) in GuardDefinitions()
  {
    var lines := GuardDefinitions();
    assert lines[1] in lines[..4];
    assert Closed(before, lines);
    assert lines[0] in lines && lines[2] in lines && lines[3] in lines;
    UsesOnly(before + lines, GuardLines());
    hide Closed;
    ClosedAppend(before, lines, GuardLines());
  }

  lemma SeamClosed(before: seq<Line>, s: Spec)
    requires Define(StarTarget) in before && Define(FrontendOrigin) in before && Define(ApiOrigin) in before
    ensures Closed(before, SeamLines(s))
    ensures !s.lifecycle.Legacy? ==> Define(Target) in SeamLines(s) && Define(GetMethod) in SeamLines(s)
  {
    var guards := GuardDefinitions() + GuardLines();
    GuardClosed(before);
    UsesOnly(before + guards, RedirectLines(s));
    ClosedAppend(before, guards, RedirectLines(s));
    UsesOnly(before, []);
    hide Closed, GuardDefinitions, GuardLines, RedirectLines;
  }

  lemma BackendsClosed(before: seq<Line>, s: Spec)
    requires Define(FrontendOrigin) in before && Define(ApiOrigin) in before
    requires !s.lifecycle.Legacy? ==> Define(Target) in before && Define(GetMethod) in before
    ensures Closed(before, AcmeLines(s) + ProductLines(s))
  {
    hide StrictTransport;
    UsesOnly(before, AcmeLines(s));
    UsesOnly(before + AcmeLines(s), ProductLines(s));
    hide Closed, AcmeLines, ProductLines;
    ClosedAppend(before, AcmeLines(s), ProductLines(s));
  }

  lemma HeadersClosed(before: seq<Line>)
    ensures Closed(before, HeaderLines())
  {
    hide Sanitization, CanonicalSource, CanonicalTransport;
    UsesOnly(before, HeaderLines());
  }

  lemma StartClosed(s: Spec)
    ensures Closed([], OpeningLines() + NativeLines(s) + MethodLines() + RewriteLines(s))
  {
    var first, lines := OpeningLines() + NativeLines(s), MethodLines();
    UsesOnly([], first);
    assert lines[0] in lines[..1] && lines[0] in lines[..2];
    assert Closed([] + first, lines);
    UsesOnly([] + (first + lines), RewriteLines(s));
    hide Closed;
    ClosedAppend([], first, lines);
    ClosedAppend([], first + lines, RewriteLines(s));
  }

  /** No rule and no note uses a name that the lines before it do not define. */
  lemma EveryConditionDefined(s: Spec)
    ensures Closed([], Lines(s, true))
  {
    hide Closed, OpeningLines, NativeLines, MethodLines, RewriteLines, AdmissionLines, ProbeLines, ProbeAnswer, HeaderLines;
    hide SeamLines, AcmeLines, ProductLines;
    var start := OpeningLines() + NativeLines(s) + MethodLines() + RewriteLines(s);
    var admitted := start + AdmissionLines();
    var probed := admitted + (ProbeLines(s) + ProbeAnswer(s));
    var headed := probed + HeaderLines();
    var guarded := headed + SeamLines(s);
    StartClosed(s);
    AdmissionClosed(start);
    FromNothing(start, AdmissionLines());
    ProbeClosed(admitted, s);
    FromNothing(admitted, ProbeLines(s) + ProbeAnswer(s));
    HeadersClosed(probed);
    FromNothing(probed, HeaderLines());
    SeamClosed(headed, s);
    FromNothing(headed, SeamLines(s));
    BackendsClosed(guarded, s);
    FromNothing(guarded, AcmeLines(s) + ProductLines(s));
    assert Lines(s, true) == guarded + (AcmeLines(s) + ProductLines(s));
  }

  lemma FromNothing(a: seq<Line>, b: seq<Line>)
    requires Closed([], a) && Closed(a, b)
    ensures Closed([], a + b)
  {
    hide Closed;
    assert [] + a == a;
    ClosedAppend([], a, b);
  }

  // ---------- From the specification ----------

  predicate AscendingTexts(texts: seq<string>) {
    forall i, j :: 0 <= i < j < |texts| ==> TextBefore(texts[i], texts[j])
  }

  function Insert(t: string, texts: seq<string>): (r: seq<string>)
    ensures forall x :: x in r <==> x == t || x in texts
    ensures |r| <= |texts| + 1
  {
    if texts == [] then [t]
    else if t == texts[0] then texts
    else if TextBefore(t, texts[0]) then [t] + texts
    else [texts[0]] + Insert(t, texts[1..])
  }

  /** sorted(set(texts)). */
  function SortedTexts(texts: seq<string>): (r: seq<string>)
    ensures forall x :: x in r <==> x in texts
    ensures |r| <= |texts|
  {
    if texts == [] then [] else Insert(texts[0], SortedTexts(texts[1..]))
  }

  lemma {:induction false} BeforeTransitive(a: string, b: string, c: string)
    requires TextBefore(a, b) && TextBefore(b, c)
    ensures TextBefore(a, c)
  {
    if a != "" && a[0] == b[0] == c[0] {
      BeforeTransitive(a[1..], b[1..], c[1..]);
    }
  }

  lemma {:induction false} BeforeTotal(a: string, b: string)
    requires a != b && !TextBefore(a, b)
    ensures TextBefore(b, a)
  {
    if a != "" && b != "" && a[0] == b[0] {
      assert a == [a[0]] + a[1..] && b == [b[0]] + b[1..];
      BeforeTotal(a[1..], b[1..]);
    }
  }

  lemma {:induction false} InsertAscending(t: string, texts: seq<string>)
    requires AscendingTexts(texts)
    ensures AscendingTexts(Insert(t, texts))
  {
    hide TextBefore;
    if texts != [] && t != texts[0] {
      var rest := texts[1..];
      if TextBefore(t, texts[0]) {
        forall x | x in rest ensures TextBefore(t, x) {
          BeforeTransitive(t, texts[0], x);
        }
      } else {
        BeforeTotal(t, texts[0]);
        InsertAscending(t, rest);
        forall x | x in Insert(t, rest) ensures TextBefore(texts[0], x) {
        }
      }
    }
  }

  /** The sorted texts ascend, so none is repeated. */
  lemma {:induction false} SortedAscending(texts: seq<string>)
    ensures AscendingTexts(SortedTexts(texts))
  {
    hide TextBefore;
    if texts != [] {
      SortedAscending(texts[1..]);
      InsertAscending(texts[0], SortedTexts(texts[1..]));
    }
  }

  function ListenerAddresses(rows: seq<Row>): (texts: seq<string>)
    ensures |texts| <= |rows|
    ensures forall t :: t in texts <==> (exists row :: row in rows && row.address == t) && t != "0.0.0.0" && t != "::"
  {
    if rows == [] then []
    else
      var rest := ListenerAddresses(rows[1..]);
      assert rows == [rows[0]] + rows[1..];
      if rows[0].address == "0.0.0.0" || rows[0].address == "::" then rest else [rows[0].address] + rest
  }

  /** Where the generation may be asked for: the loopback addresses and the host's own listeners. */
  function ProbeSources(d: Direct): seq<string> {
    SortedTexts(["127.0.0.1", "::1"] + ListenerAddresses(d.rows))
  }

  /** Exactly these addresses, in ascending order without repeats. */
  lemma ProbeSourcesExact(d: Direct, t: string)
    ensures t in ProbeSources(d) <==>
            || t == "127.0.0.1" || t == "::1"
            || ((exists row :: row in d.rows && row.address == t) && t != "0.0.0.0" && t != "::")
    ensures AscendingTexts(ProbeSources(d))
  {
    SortedAscending(["127.0.0.1", "::1"] + ListenerAddresses(d.rows));
  }

  function SpecOf(d: Direct, generation: string): Spec {
    Spec(d.routing, if d.topology.Single? then d.topology.lifecycle else Legacy, generation, ProbeSources(d),
         d.topology.Ha?)
  }

  // ---------- The whole text ----------

  function TransportName(t: Transport): (text: string)
    ensures |text| <= 5
  {
    if t.Http? then "http" else "https"
  }

  /** The transports in use, in the order of their names. */
  function Transports(rows: seq<Row>): (ts: seq<Transport>)
    ensures |ts| <= 2
    ensures forall t :: t in ts <==> HasTransport(rows, t)
  {
    (if HasTransport(rows, Http) then [Http] else []) + (if HasTransport(rows, Https) then [Https] else [])
  }

  function DecoderPort(t: Transport): nat {
    if t.Http? then 18082 else 18083
  }

  function Decoders(ts: seq<Transport>): (rows: seq<Row>)
    ensures |rows| == |ts|
    ensures forall row :: row in rows ==> row.address == "127.0.0.1" && row.port <= 65535
  {
    if ts == [] then [] else [Row("127.0.0.1", DecoderPort(ts[0]), ts[0], [])] + Decoders(ts[1..])
  }

  /** What the ingress binds: the listeners themselves, or the decoders behind the trusted proxies' prefaces. */
  function BoundRows(d: Direct): seq<Row> {
    if d.topology.Ha? then Decoders(Transports(d.rows)) else d.rows
  }

  function Endpoint(row: Row): string {
    (if ':' in row.address then "[" + row.address + "]" else row.address) + ":" + TextOf(row.port)
  }

  function Version6Only(row: Row): (text: string)
    ensures |text| <= 7
  {
    if ':' in row.address then " v6only" else ""
  }

  function TlsOptions(): (text: string)
    ensures |text| <= 80
  {
    " ssl crt /etc/haproxy/secpal-viewer.pem ssl-min-ver TLSv1.2 alpn h2,http/1.1"
  }

  function BindLine(row: Row, ha: bool): string {
    "    bind " + Endpoint(row) + (if ha then " accept-proxy" else "") + Version6Only(row)
    + (if row.transport.Https? then TlsOptions() else "") + "\n"
  }

  function Binds(rows: seq<Row>, ha: bool): string {
    hide BindLine;
    if rows == [] then "" else BindLine(rows[0], ha) + Binds(rows[1..], ha)
  }

  /** The tags are written in two parts, so that they are not taken for this file's own. */
  function Notice(): (text: string)
    ensures |text| <= 180
  {
    "# SPD" + "X-FileCopyrightText: 2026 SecPal Contributors\n# SPD" + "X-License-Identifier: MIT\n"
    + "# Reviewed shared base; listener placement and canonical identity have separate owners.\n"
  }

  function Global(): (text: string)
    ensures |text| <= 220
  {
    "global\n    user haproxy\n    group haproxy\n    log stdout format raw local0 info\n    maxconn 4096\n"
    + "    nbthread 2\n    tune.bufsize 16384\n    tune.maxrewrite 1024\n    tune.http.maxhdr 64\n    hard-stop-after 35s\n\n"
  }

  function Defaults(): (text: string)
    ensures |text| <= 120
  {
    "defaults\n    mode http\n    log global\n    timeout connect 3s\n    timeout client 30s\n    timeout server 30s\n"
  }

  function MoreDefaults(): (text: string)
    ensures |text| <= 190
  {
    "    timeout http-request 5s\n    timeout http-keep-alive 5s\n    timeout queue 3s\n    timeout check 3s\n"
    + "    timeout tunnel 30s\n    retries 0\n    unique-id-format %[uuid()]\n"
  }

  /** Who the log says a request came from; behind trusted proxies that is more than one fact. */
  function LogPeer(ha: bool): (text: string)
    ensures |text| <= 110
  {
    if ha then "stage=http worker=%pid edge=%[fc_src]:%[fc_src_port]>%[fc_dst]:%[fc_dst_port] client=%ci "
    else "peer=%[fc_src] client=%ci "
  }

  function LogFacts(): (text: string)
    ensures |text| <= 190
  {
    "request_id=%ID method=%[var(txn.method)] origin=%[var(txn.origin)] backend=%b server=%s status=%ST bytes=%B "
    + "duration_ms=%Ta termination=%tsc security=%[var(txn.security)]\"\n\n"
  }

  function Preamble(ha: bool): (text: string)
    ensures |text| <= 1100
  {
    hide *;
    Notice() + Global() + Defaults() + MoreDefaults() + "    log-format \"" + LogPeer(ha) + LogFacts()
    + "frontend secpal_ingress\n"
  }

  function Check(path: string): (text: string)
    ensures |text| <= 220 + |path|
  {
    "    option httpchk\n    http-check send meth GET uri " + path + " ver HTTP/1.1 hdr Host localhost\n"
    + "    http-check expect status 200 on-error str(readiness_rejected) on-success str(ready)\n"
  }

  function Server(name: string, port: nat): (text: string)
    requires port < 100000
    ensures |text| <= 110 + |name|
  {
    TextLength(port, 5);
    "    server " + name + " 127.0.0.1:" + TextOf(port) + " check inter 1s fastinter 1s downinter 1s fall 1 rise 2\n"
  }

  function ProductBackends(): (text: string)
    ensures |text| <= 800
  {
    hide Check, Server, BackendName;
    "\nbackend " + BackendName(Frontend) + "\n" + Check("/health/live") + Server("frontend", 18080)
    + "\nbackend " + BackendName(Api) + "\n" + Check("/health/ready") + Server("api", 18081)
  }

  function AcmeBackend(): (text: string)
    ensures |text| <= 230
  {
    "\nbackend " + BackendName(Acme) + "\n    timeout connect 1s\n    timeout server 5s\n"
    + "    http-request del-header X-Forwarded- -m beg\n    http-request set-header Host localhost\n"
    + "    server certbot 127.0.0.1:18084\n"
  }

  /** Only a version 2 header of a known family, from a trusted peer, passes the preface. */
  function HeaderTests(): (text: string)
    ensures |text| <= 180
  {
    "    tcp-request inspect-delay 1s\n    acl v4 req.payload(0,16) -m bin 0d0a0d0a000d0a515549540a2111000c\n"
    + "    acl v6 req.payload(0,16) -m bin 0d0a0d0a000d0a515549540a21210024\n"
  }

  function LengthTests(): (text: string)
    ensures |text| <= 170
  {
    "    acl complete_v4 req.payload(0,28) -m found\n    acl complete_v6 req.payload(0,52) -m found\n"
    + "    acl mapped_v6 req.payload(16,12) -m bin 00000000000000000000ffff\n"
  }

  function HeaderVerdicts(): (text: string)
    ensures |text| <= 240
  {
    "    tcp-request content reject if v6 complete_v6 mapped_v6\n    tcp-request content accept if v4 complete_v4\n"
    + "    tcp-request content accept if v6 complete_v6\n    tcp-request content reject if WAIT_END\n    option logasap\n"
  }

  function PrefaceLog(): (text: string)
    ensures |text| <= 150
  {
    "    log-format \"stage=admission worker=%pid peer=%ci edge=%[bc_src]:%[bc_src_port]>%[bc_dst]:%[bc_dst_port] "
    + "termination=%ts\"\n"
  }

  function PrefaceBind(row: Row, index: nat): string {
    "frontend secpal_preface_" + TextOf(index) + "\n    mode tcp\n    bind " + Endpoint(row) + Version6Only(row) + "\n"
  }

  /** Only the trusted peers, and the host itself, may connect at all. */
  function PeerTest(row: Row): string {
    "    tcp-request connection reject unless { src " + Join(row.peers) + " 127.0.0.1 ::1 " + row.address + " }\n"
  }

  function ToDecoder(row: Row): (text: string)
    ensures |text| <= 45
  {
    "    default_backend secpal_decoder_" + TransportName(row.transport) + "\n"
  }

  function PrefaceSection(row: Row, index: nat): string {
    PrefaceBind(row, index) + PeerTest(row) + HeaderTests() + LengthTests() + HeaderVerdicts() + PrefaceLog()
    + ToDecoder(row)
  }

  function PrefaceSections(rows: seq<Row>, index: nat): string {
    hide PrefaceSection;
    if rows == [] then "" else PrefaceSection(rows[0], index) + PrefaceSections(rows[1..], index + 1)
  }

  function DecoderBackend(t: Transport): (text: string)
    ensures |text| <= 100
  {
    TextLength(DecoderPort(t), 5);
    "backend secpal_decoder_" + TransportName(t) + "\n    mode tcp\n    server decoder 127.0.0.1:"
    + TextOf(DecoderPort(t)) + "\n"
  }

  function DecoderBackends(ts: seq<Transport>): string {
    if ts == [] then "" else DecoderBackend(ts[0]) + DecoderBackends(ts[1..])
  }

  function PrefaceText(d: Direct): string {
    if d.topology.Ha? then PrefaceSections(d.rows, 0) + DecoderBackends(Transports(d.rows)) else ""
  }

  /** Everything after the first line; without a generation it is what the generation is the digest of. */
  function Body(d: Direct, generation: Option<string>): string {
    BodyOf(d, SpecOf(d, if generation.Some? then generation.value else ""), generation.Some?)
  }

  function BodyOf(d: Direct, s: Spec, probed: bool): string {
    Preamble(d.topology.Ha?) + Binds(BoundRows(d), d.topology.Ha?) + PrintLines(Lines(s, probed), s)
    + ProductBackends() + (if s.lifecycle.Legacy? then "" else AcmeBackend()) + PrefaceText(d)
  }
}
