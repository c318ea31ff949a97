/**
  What the rendered HTTP routing means, request by request (scripts/haproxy_base_contract.py,
  scripts/haproxy_direct_contract.py). Rules are kept in the order they are rendered in.
 */
module DirectRouting {
  import opened Common

  const METHODS := ["GET", "HEAD", "POST", "PUT", "PATCH", "DELETE", "OPTIONS"]

  const CHALLENGE := "/.well-known/acme-challenge/"
  const CHALLENGE_PREFIX := "/.well-known/acme-challenge"

  // ---------- Origins ----------

  predicate HostCharacter(c: char) {
    'a' <= c <= 'z' || '0' <= c <= '9' || c == '-' || c == '.'
  }

  /** A lower-case domain name; in particular, nothing that could be read as a port. */
  predicate Hostname(name: string) {
    3 <= |name| <= 253 && '.' in name && forall c :: c in name ==> HostCharacter(c)
  }

  datatype AnyRouting = Routing(frontendHost: string, apiHost: string)
  type Routing = r: AnyRouting | Hostname(r.frontendHost) && Hostname(r.apiHost) && r.frontendHost != r.apiHost
    witness Routing("a.b", "a.c")

  function Authorities(host: string): set<string> {
    {host, host + ":80", host + ":443"}
  }

  /** No authority names both origins. */
  lemma OriginsDisjoint(r: Routing)
    ensures Authorities(r.frontendHost) !! Authorities(r.apiHost)
  {
    var f, a := r.frontendHost, r.apiHost;
    NoPort(f, a);
    NoPort(a, f);
    SameSuffix(f, a, ":80");
    SameSuffix(f, a, ":443");
  }

  lemma SameSuffix(f: string, a: string, suffix: string)
    ensures f + suffix == a + suffix ==> f == a
  {
    assert (f + suffix)[..|f|] == f && (a + suffix)[..|a|] == a;
  }

  lemma NoPort(f: string, a: string)
    requires Hostname(f) && Hostname(a)
    ensures f + ":80" != a && f + ":443" != a && f + ":80" != a + ":443"
  {
    assert (f + ":80")[|f|] == ':' && (f + ":443")[|f|] == ':';
    assert f + ":80" == a ==> ':' in a;
    assert f + ":443" == a ==> ':' in a;
    var x, y := f + ":80", a + ":443";
    assert x[|x| - 1] == '0' && y[|y| - 1] == '3';
  }

  // ---------- Requests ----------

  /**
    `hosts` are the values of the Host header, lower-cased; `target` is the request target as received;
    `improper` says that the source is unspecified or a multicast address.
   */
  datatype Request = Request(verb: string, http2: bool, target: string, pathAndQuery: string, hosts: seq<string>,
                             probes: seq<string>, source: string, sourcePort: nat, improper: bool, tls: bool)

  /** The target the rules after set-uri look at. */
  function Url(r: Request, rewrites: bool): string {
    if rewrites && r.http2 then r.pathAndQuery else r.target
  }

  function PathOf(url: string): string {
    if url == [] || url[0] == '?' then [] else [url[0]] + PathOf(url[1..])
  }

  predicate Hex(c: char) {
    '0' <= c <= '9' || 'a' <= c <= 'f' || 'A' <= c <= 'F'
  }

  function HexValue(c: char): (v: int)
    requires Hex(c)
    ensures 0 <= v < 16
  {
    if c <= '9' then c as int - '0' as int
    else if c <= 'F' then c as int - 'A' as int + 10
    else c as int - 'a' as int + 10
  }

  /** url_dec: percent escapes are undone, everything else is kept; a malformed escape fails the whole. */
  function UrlDecoded(s: string): Option<string> {
    if s == [] then Some([])
    else if s[0] == '%' then
      if |s| < 3 || !Hex(s[1]) || !Hex(s[2]) then None
      else Prepended((16 * HexValue(s[1]) + HexValue(s[2])) as char, UrlDecoded(s[3..]))
    else Prepended(s[0], UrlDecoded(s[1..]))
  }

  function Prepended(c: char, rest: Option<string>): Option<string> {
    if rest.None? then None else Some([c] + rest.value)
  }

  function Lower(c: char): char {
    if 'A' <= c <= 'Z' then (c as int + 32) as char else c
  }

  /** -i -m beg. */
  predicate BeginsLike(s: string, prefix: string) {
    |prefix| <= |s| && forall i :: 0 <= i < |prefix| ==> Lower(s[i]) == Lower(prefix[i])
  }

  predicate TokenCharacter(c: char) {
    'A' <= c <= 'Z' || 'a' <= c <= 'z' || '0' <= c <= '9' || c == '_' || c == '-'
  }

  /** The exact challenge path with its 43 token characters (section 8.3 of RFC 8555). */
  predicate ChallengeTarget(url: string) {
    && |url| == |CHALLENGE| + 43 && CHALLENGE <= url
    && forall i :: |CHALLENGE| <= i < |url| ==> TokenCharacter(url[i])
  }

  lemma {:induction false} PathWithoutQuery(url: string)
    requires '?' !in url
    ensures PathOf(url) == url
  {
    if url != [] {
      assert url[0] in url;
      PathWithoutQuery(url[1..]);
    }
  }

  lemma {:induction false} DecodedPlain(s: string)
    requires '%' !in s
    ensures UrlDecoded(s) == Some(s)
  {
    if s != [] {
      assert s[0] in s;
      DecodedPlain(s[1..]);
      assert [s[0]] + s[1..] == s;
    }
  }

  predicate ChallengePrefix(url: string) {
    var decoded := UrlDecoded(PathOf(url));
    decoded.Some? && BeginsLike(decoded.value, CHALLENGE_PREFIX)
  }

  predicate AmbiguousPrefix(url: string) {
    var decoded := UrlDecoded(PathOf(url));
    decoded.Some? && BeginsLike(decoded.value, "/" + CHALLENGE_PREFIX)
  }

  lemma TargetIsPlain(url: string)
    requires ChallengeTarget(url)
    ensures '?' !in url && '%' !in url
  {
    var n := |CHALLENGE|;
    assert forall i :: 0 <= i < n ==> CHALLENGE[i] != '?' && CHALLENGE[i] != '%';
    assert forall i :: 0 <= i < n ==> url[i] == CHALLENGE[i];
  }

  /** The exact target is under the guarded prefix, unambiguously: every guard before the backend sees it. */
  lemma TargetIsGuarded(url: string)
    requires ChallengeTarget(url)
    ensures ChallengePrefix(url) && !AmbiguousPrefix(url) && |url| <= 8192 && "/" <= url && url != "*"
  {
    TargetIsPlain(url);
    PathWithoutQuery(url);
    DecodedPlain(url);
    hide PathOf, UrlDecoded, TokenCharacter;
    assert forall i :: 0 <= i < |CHALLENGE_PREFIX| ==> url[i] == CHALLENGE[i] == CHALLENGE_PREFIX[i];
    assert url[1] == CHALLENGE[1] == '.';
    assert ("/" + CHALLENGE_PREFIX)[1] == '/';
  }

  // ---------- Rules ----------

  datatype Acl =
    | ImproperSource | SourcePort | SupportedMethod | Http2 | OriginForm | OptionsMethod | StarTarget | OneHost
    | FrontendOrigin | ApiOrigin | TooLong
    | ProbeMethod | GenerationPath | OneProbe | ProbeValue(generation: string) | ProbeSource(sources: seq<string>)
    | Ambiguous | Prefix | Target | GetMethod | Tls

  datatype Condition = Is(acl: Acl) | Not(acl: Acl)

  datatype Backend = Frontend | Api | Acme

  datatype Action =
    | Deny(status: nat)
    | Return(status: nat)
    | RedirectTo(location: string)
    | RedirectPrefix(prefix: string)
    | SetUri
    | UseBackend(backend: Backend)

  datatype Rule = Rule(action: Action, conditions: seq<Condition>)

  datatype Lifecycle = Legacy | Http01 | Hsts

  /** `ha`: requests come through a trusted proxy, whose word about their source is checked first. */
  datatype Spec = Spec(routing: Routing, lifecycle: Lifecycle, generation: string, probeSources: seq<string>, ha: bool)

  function NativeRules(s: Spec): seq<Rule> {
    if s.ha then [Rule(Deny(400), [Is(ImproperSource)]), Rule(Deny(400), [Not(SourcePort)])] else []
  }

  function MethodRules(): seq<Rule> {
    [Rule(Deny(405), [Not(SupportedMethod)])]
  }

  /** HTTP/2 presents its target as an absolute URI. */
  function RewriteRules(s: Spec): seq<Rule> {
    if s.lifecycle.Legacy? then [] else [Rule(SetUri, [Is(Http2)])]
  }

  function AdmissionRules(): seq<Rule> {
    [Rule(Deny(400), [Not(OriginForm), Not(OptionsMethod)]),
     Rule(Deny(400), [Not(OriginForm), Not(StarTarget)]),
     Rule(Deny(400), [Not(OneHost)]),
     Rule(Deny(421), [Not(FrontendOrigin), Not(ApiOrigin)]),
     Rule(Return(414), [Is(TooLong)])]
  }

  function ProbeRules(s: Spec): seq<Rule> {
    if s.lifecycle.Legacy? then
      [Rule(Return(204), [Is(ProbeMethod), Is(GenerationPath), Is(OneProbe), Is(ProbeValue(s.generation))])]
    else
      [Rule(Return(204), [Is(ProbeMethod), Is(GenerationPath), Is(OneProbe), Is(ProbeValue(s.generation)),
                          Is(ProbeSource(s.probeSources))])]
  }

  /** The certificate challenge's own paths, guarded whatever the transport. */
  function GuardRules(): seq<Rule> {
    [Rule(Deny(400), [Is(Ambiguous)]),
     Rule(Deny(400), [Is(Prefix), Not(Target)]),
     Rule(Deny(405), [Is(Prefix), Not(GetMethod)])]
  }

  /** Everything else in plaintext is sent to its own origin's TLS; a challenge over TLS is refused. */
  function RedirectRules(s: Spec): seq<Rule> {
    [Rule(RedirectTo("https://" + s.routing.frontendHost + "/"), [Is(FrontendOrigin), Is(StarTarget), Not(Tls)]),
     Rule(RedirectTo("https://" + s.routing.apiHost + "/"), [Is(ApiOrigin), Is(StarTarget), Not(Tls)]),
     Rule(RedirectPrefix("https://" + s.routing.frontendHost), [Is(FrontendOrigin), Not(Target), Not(Tls)]),
     Rule(RedirectPrefix("https://" + s.routing.apiHost), [Is(ApiOrigin), Not(Target), Not(Tls)]),
     Rule(Deny(404), [Is(Target), Is(Tls)])]
  }

  function SeamRules(s: Spec): seq<Rule> {
    if s.lifecycle.Legacy? then [] else GuardRules() + RedirectRules(s)
  }

  function BackendRules(s: Spec): seq<Rule> {
    (if s.lifecycle.Legacy? then [] else [Rule(UseBackend(Acme), [Is(Target), Is(GetMethod), Not(Tls)])])
    + [Rule(UseBackend(Frontend), [Is(FrontendOrigin)]), Rule(UseBackend(Api), [Is(ApiOrigin)])]
  }

  function Rules(s: Spec): seq<Rule> {
    NativeRules(s) + MethodRules() + RewriteRules(s) + AdmissionRules() + ProbeRules(s) + SeamRules(s) + BackendRules(s)
  }

  // ---------- Evaluation ----------

  datatype Outcome =
    | Denied(status: nat)
    | Returned(status: nat)
    | Redirected(location: string)
    | Routed(backend: Backend)
    | Unrouted

  predicate Holds(acl: Acl, s: Spec, r: Request, url: string) {
    match acl
    case ImproperSource => r.improper
    case SourcePort => r.sourcePort > 0
    case SupportedMethod => r.verb in METHODS
    case Http2 => r.http2
    case OriginForm => "/" <= url
    case OptionsMethod => r.verb == "OPTIONS"
    case StarTarget => url == "*"
    case OneHost => |r.hosts| == 1
    case FrontendOrigin => exists h :: h in r.hosts && h in Authorities(s.routing.frontendHost)
    case ApiOrigin => exists h :: h in r.hosts && h in Authorities(s.routing.apiHost)
    case TooLong => |url| > 8192
    case GetMethod => r.verb == "GET"
    case ProbeMethod => r.verb == "GET"
    case GenerationPath => PathOf(url) == "/_secpal/proxy-generation"
    case OneProbe => |r.probes| == 1
    case ProbeValue(generation) => generation in r.probes
    case ProbeSource(sources) => r.source in sources
    case Ambiguous => AmbiguousPrefix(url)
    case Prefix => ChallengePrefix(url)
    case Target => ChallengeTarget(url)
    case Tls => r.tls
  }

  predicate Satisfied(c: Condition, s: Spec, r: Request, url: string) {
    if c.Is? then Holds(c.acl, s, r, url) else !Holds(c.acl, s, r, url)
  }

  predicate Applies(rule: Rule, s: Spec, r: Request, url: string) {
    forall c :: c in rule.conditions ==> Satisfied(c, s, r, url)
  }

  function Answer(action: Action, url: string): Outcome
    requires !action.SetUri?
  {
    match action
    case Deny(status) => Denied(status)
    case Return(status) => Returned(status)
    case RedirectTo(location) => Redirected(location)
    case RedirectPrefix(prefix) => Redirected(prefix + url)
    case UseBackend(backend) => Routed(backend)
  }

  /** The rules in order; the first one that answers ends the evaluation. */
  function Route(rules: seq<Rule>, s: Spec, r: Request, url: string): Outcome {
    if rules == [] then Unrouted
    else if !Applies(rules[0], s, r, url) then Route(rules[1..], s, r, url)
    else if rules[0].action.SetUri? then Route(rules[1..], s, r, r.pathAndQuery)
    else Answer(rules[0].action, url)
  }

  function Served(s: Spec, r: Request): Outcome {
    Route(Rules(s), s, r, r.target)
  }

  // ---------- Meaning ----------

  lemma Step(rule: Rule, rest: seq<Rule>, s: Spec, r: Request, url: string)
    ensures Route([rule] + rest, s, r, url) ==
            if !Applies(rule, s, r, url) then Route(rest, s, r, url)
            else if rule.action.SetUri? then Route(rest, s, r, r.pathAndQuery)
            else Answer(rule.action, url)
  {
    assert ([rule] + rest)[1..] == rest;
  }

  /** One rule with its conditions spelled out. */
  lemma StepOn(action: Action, cs: seq<Condition>, rest: seq<Rule>, s: Spec, r: Request, url: string)
    requires 1 <= |cs| <= 5 && !action.SetUri?
    ensures Route([Rule(action, cs)] + rest, s, r, url) ==
            if && Satisfied(cs[0], s, r, url)
               && (|cs| > 1 ==> Satisfied(cs[1], s, r, url)) && (|cs| > 2 ==> Satisfied(cs[2], s, r, url))
               && (|cs| > 3 ==> Satisfied(cs[3], s, r, url)) && (|cs| > 4 ==> Satisfied(cs[4], s, r, url))
            then Answer(action, url)
            else Route(rest, s, r, url)
  {
    hide Satisfied, Route;
    Step(Rule(action, cs), rest, s, r, url);
  }

  /** The admission that every routed request has passed. */
  predicate AdmittedRequest(s: Spec, r: Request, url: string) {
    && (s.ha ==> !r.improper && r.sourcePort > 0) && r.verb in METHODS
    && ("/" <= url || (r.verb == "OPTIONS" && url == "*"))
    && |r.hosts| == 1 && (r.hosts[0] in Authorities(s.routing.frontendHost) || r.hosts[0] in Authorities(s.routing.apiHost))
    && |url| <= 8192
  }

  /** The private answer about the running generation. */
  predicate ProbeAnswered(s: Spec, r: Request, url: string) {
    && r.verb == "GET" && PathOf(url) == "/_secpal/proxy-generation" && r.probes == [s.generation]
    && (!s.lifecycle.Legacy? ==> r.source in s.probeSources)
  }

  lemma AdmissionMeaning(s: Spec, r: Request, url: string, rest: seq<Rule>)
    requires r.verb in METHODS && (s.ha ==> !r.improper && r.sourcePort > 0)
    ensures AdmittedRequest(s, r, url) ==> Route(AdmissionRules() + rest, s, r, url) == Route(rest, s, r, url)
    ensures !AdmittedRequest(s, r, url) ==>
      Route(AdmissionRules() + rest, s, r, url) in {Denied(400), Denied(421), Returned(414)}
  {
    hide Authorities, Route, Applies;
    var probe := [Rule(Return(414), [Is(TooLong)])];
    var origin := [Rule(Deny(421), [Not(FrontendOrigin), Not(ApiOrigin)])];
    var host := [Rule(Deny(400), [Not(OneHost)])];
    var star := [Rule(Deny(400), [Not(OriginForm), Not(StarTarget)])];
    var options := [Rule(Deny(400), [Not(OriginForm), Not(OptionsMethod)])];
    assert AdmissionRules() + rest == options + (star + (host + (origin + (probe + rest))));
    StepOn(Return(414), [Is(TooLong)], rest, s, r, url);
    StepOn(Deny(421), [Not(FrontendOrigin), Not(ApiOrigin)], probe + rest, s, r, url);
    StepOn(Deny(400), [Not(OneHost)], origin + (probe + rest), s, r, url);
    StepOn(Deny(400), [Not(OriginForm), Not(StarTarget)], host + (origin + (probe + rest)), s, r, url);
    StepOn(Deny(400), [Not(OriginForm), Not(OptionsMethod)], star + (host + (origin + (probe + rest))), s, r, url);
    if |r.hosts| == 1 {
      assert r.hosts[0] in r.hosts;
    }
  }

  lemma ProbeHolds(s: Spec, r: Request, url: string)
    ensures ProbeAnswered(s, r, url) <==>
      && Holds(ProbeMethod, s, r, url) && Holds(GenerationPath, s, r, url) && Holds(OneProbe, s, r, url)
      && Holds(ProbeValue(s.generation), s, r, url)
      && (!s.lifecycle.Legacy? ==> Holds(ProbeSource(s.probeSources), s, r, url))
  {
    hide PathOf;
    if |r.probes| == 1 {
      assert r.probes == [r.probes[0]];
    }
  }

  lemma ProbeMeaning(s: Spec, r: Request, url: string, rest: seq<Rule>)
    ensures Route(ProbeRules(s) + rest, s, r, url) ==
            if ProbeAnswered(s, r, url) then Returned(204) else Route(rest, s, r, url)
  {
    hide Route, Applies, Holds, ProbeAnswered;
    ProbeHolds(s, r, url);
    var cs := [Is(ProbeMethod), Is(GenerationPath), Is(OneProbe), Is(ProbeValue(s.generation))];
    var sourced := [Is(ProbeMethod), Is(GenerationPath), Is(OneProbe), Is(ProbeValue(s.generation)),
                    Is(ProbeSource(s.probeSources))];
    if s.lifecycle.Legacy? {
      StepOn(Return(204), cs, rest, s, r, url);
    } else {
      StepOn(Return(204), sourced, rest, s, r, url);
    }
  }

  lemma GuardMeaning(s: Spec, r: Request, url: string, rest: seq<Rule>)
    ensures Route(GuardRules() + rest, s, r, url) ==
            if AmbiguousPrefix(url) || (ChallengePrefix(url) && !ChallengeTarget(url)) then Denied(400)
            else if ChallengePrefix(url) && r.verb != "GET" then Denied(405)
            else Route(rest, s, r, url)
  {
    hide Route, AmbiguousPrefix, ChallengePrefix, ChallengeTarget;
    hide Applies;
    var verb := [Rule(Deny(405), [Is(Prefix), Not(GetMethod)])];
    var exact := [Rule(Deny(400), [Is(Prefix), Not(Target)])];
    assert GuardRules() + rest == [Rule(Deny(400), [Is(Ambiguous)])] + (exact + (verb + rest));
    StepOn(Deny(405), [Is(Prefix), Not(GetMethod)], rest, s, r, url);
    StepOn(Deny(400), [Is(Prefix), Not(Target)], verb + rest, s, r, url);
    StepOn(Deny(400), [Is(Ambiguous)], exact + (verb + rest), s, r, url);
  }

  /** Where an admitted plaintext request is sent that is not a challenge. */
  function Redirection(s: Spec, r: Request, url: string): string
    requires |r.hosts| == 1
  {
    var host := if r.hosts[0] in Authorities(s.routing.frontendHost) then s.routing.frontendHost else s.routing.apiHost;
    if url == "*" then "https://" + host + "/" else "https://" + host + url
  }

  lemma OriginOf(s: Spec, r: Request, url: string)
    requires |r.hosts| == 1
    ensures Holds(FrontendOrigin, s, r, url) <==> r.hosts[0] in Authorities(s.routing.frontendHost)
    ensures Holds(ApiOrigin, s, r, url) <==> r.hosts[0] in Authorities(s.routing.apiHost)
    ensures !(Holds(FrontendOrigin, s, r, url) && Holds(ApiOrigin, s, r, url))
    ensures Holds(StarTarget, s, r, url) <==> url == "*"
    ensures Holds(Target, s, r, url) <==> ChallengeTarget(url)
    ensures Holds(Tls, s, r, url) <==> r.tls
    ensures Holds(GetMethod, s, r, url) <==> r.verb == "GET"
  {
    OriginsDisjoint(s.routing);
    assert r.hosts[0] in r.hosts;
  }

  /** The redirects of every target but "*", and the refusal of a challenge over TLS. */
  function PathRedirects(s: Spec): seq<Rule> {
    [Rule(RedirectPrefix("https://" + s.routing.frontendHost), [Is(FrontendOrigin), Not(Target), Not(Tls)]),
     Rule(RedirectPrefix("https://" + s.routing.apiHost), [Is(ApiOrigin), Not(Target), Not(Tls)]),
     Rule(Deny(404), [Is(Target), Is(Tls)])]
  }

  /** The conditions of the redirects, one by one. */
  lemma RedirectConditions(s: Spec, r: Request, url: string)
    requires |r.hosts| == 1
    ensures Satisfied(Is(FrontendOrigin), s, r, url) <==> r.hosts[0] in Authorities(s.routing.frontendHost)
    ensures Satisfied(Is(ApiOrigin), s, r, url) <==> r.hosts[0] in Authorities(s.routing.apiHost)
    ensures Satisfied(Not(Target), s, r, url) <==> !ChallengeTarget(url)
    ensures Satisfied(Is(Target), s, r, url) <==> ChallengeTarget(url)
    ensures Satisfied(Not(Tls), s, r, url) <==> !r.tls
    ensures Satisfied(Is(Tls), s, r, url) <==> r.tls
    ensures Satisfied(Is(StarTarget), s, r, url) <==> url == "*"
  {
    OriginOf(s, r, url);
    hide Holds, ChallengeTarget, Authorities;
  }

  lemma OneOrigin(s: Spec, r: Request, url: string)
    requires AdmittedRequest(s, r, url)
    ensures |r.hosts| == 1
    ensures r.hosts[0] in Authorities(s.routing.frontendHost) || r.hosts[0] in Authorities(s.routing.apiHost)
  {
  }

  lemma PathRedirectMeaning(s: Spec, r: Request, url: string, rest: seq<Rule>)
    requires AdmittedRequest(s, r, url)
    ensures Route(PathRedirects(s) + rest, s, r, url) ==
            if r.tls then (if ChallengeTarget(url) then Denied(404) else Route(rest, s, r, url))
            else if ChallengeTarget(url) then Route(rest, s, r, url)
            else if r.hosts[0] in Authorities(s.routing.frontendHost) then
              Redirected("https://" + s.routing.frontendHost + url)
            else Redirected("https://" + s.routing.apiHost + url)
  {
    OneOrigin(s, r, url);
    RedirectConditions(s, r, url);
    hide Route, ChallengeTarget, Authorities, Applies, Satisfied, AdmittedRequest;
    var f, a := "https://" + s.routing.frontendHost, "https://" + s.routing.apiHost;
    var refuse := [Rule(Deny(404), [Is(Target), Is(Tls)])];
    var api := [Rule(RedirectPrefix(a), [Is(ApiOrigin), Not(Target), Not(Tls)])];
    assert PathRedirects(s) + rest ==
           [Rule(RedirectPrefix(f), [Is(FrontendOrigin), Not(Target), Not(Tls)])] + (api + (refuse + rest));
    StepOn(Deny(404), [Is(Target), Is(Tls)], rest, s, r, url);
    StepOn(RedirectPrefix(a), [Is(ApiOrigin), Not(Target), Not(Tls)], refuse + rest, s, r, url);
    StepOn(RedirectPrefix(f), [Is(FrontendOrigin), Not(Target), Not(Tls)], api + (refuse + rest), s, r, url);
  }

  lemma RedirectMeaning(s: Spec, r: Request, url: string, rest: seq<Rule>)
    requires AdmittedRequest(s, r, url) && (ChallengeTarget(url) ==> url != "*")
    ensures Route(RedirectRules(s) + rest, s, r, url) ==
            if r.tls then (if ChallengeTarget(url) then Denied(404) else Route(rest, s, r, url))
            else if ChallengeTarget(url) then Route(rest, s, r, url)
            else Redirected(Redirection(s, r, url))
  {
    OriginOf(s, r, url);
    PathRedirectMeaning(s, r, url, rest);
    hide Route, ChallengeTarget, Authorities, Applies, Holds, PathRedirects;
    var f, a := "https://" + s.routing.frontendHost, "https://" + s.routing.apiHost;
    var apiStar := [Rule(RedirectTo(a + "/"), [Is(ApiOrigin), Is(StarTarget), Not(Tls)])];
    StarsFirst(s, rest);
    StepOn(RedirectTo(a + "/"), [Is(ApiOrigin), Is(StarTarget), Not(Tls)], PathRedirects(s) + rest, s, r, url);
    StepOn(RedirectTo(f + "/"), [Is(FrontendOrigin), Is(StarTarget), Not(Tls)],
           apiStar + (PathRedirects(s) + rest), s, r, url);
  }

  lemma StarsFirst(s: Spec, rest: seq<Rule>)
    ensures RedirectRules(s) + rest ==
            [Rule(RedirectTo("https://" + s.routing.frontendHost + "/"), [Is(FrontendOrigin), Is(StarTarget), Not(Tls)])]
            + ([Rule(RedirectTo("https://" + s.routing.apiHost + "/"), [Is(ApiOrigin), Is(StarTarget), Not(Tls)])]
               + (PathRedirects(s) + rest))
  {
  }

  lemma BackendMeaning(s: Spec, r: Request, url: string)
    requires AdmittedRequest(s, r, url)
    ensures Route(BackendRules(s), s, r, url) ==
            if !s.lifecycle.Legacy? && ChallengeTarget(url) && r.verb == "GET" && !r.tls then Routed(Acme)
            else if r.hosts[0] in Authorities(s.routing.frontendHost) then Routed(Frontend)
            else Routed(Api)
  {
    OriginOf(s, r, url);
    hide ChallengeTarget, Authorities, Applies, Route, Holds;
    var f, a := [Rule(UseBackend(Frontend), [Is(FrontendOrigin)])], [Rule(UseBackend(Api), [Is(ApiOrigin)])];
    StepOn(UseBackend(Api), [Is(ApiOrigin)], [], s, r, url);
    StepOn(UseBackend(Frontend), [Is(FrontendOrigin)], a + [], s, r, url);
    StepOn(UseBackend(Acme), [Is(Target), Is(GetMethod), Not(Tls)], f + (a + []), s, r, url);
    assert s.lifecycle.Legacy? ==> BackendRules(s) == f + (a + []);
    assert !s.lifecycle.Legacy? ==>
      BackendRules(s) == [Rule(UseBackend(Acme), [Is(Target), Is(GetMethod), Not(Tls)])] + (f + (a + []));
  }

  /** The decision stated outright. `url` is the target once HTTP/2's absolute form is undone. */
  function Decision(s: Spec, r: Request, url: string): Outcome
    requires AdmittedRequest(s, r, url)
  {
    var product := if r.hosts[0] in Authorities(s.routing.frontendHost) then Routed(Frontend) else Routed(Api);
    if ProbeAnswered(s, r, url) then Returned(204)
    else if s.lifecycle.Legacy? then product
    else if AmbiguousPrefix(url) || (ChallengePrefix(url) && !ChallengeTarget(url)) then Denied(400)
    else if ChallengePrefix(url) && r.verb != "GET" then Denied(405)
    else if ChallengeTarget(url) then if r.tls then Denied(404) else Routed(Acme)
    else if r.tls then product
    else Redirected(Redirection(s, r, url))
  }

  lemma RoutingMeaning(s: Spec, r: Request)
    ensures var url := Url(r, !s.lifecycle.Legacy?);
            if AdmittedRequest(s, r, url) then Served(s, r) == Decision(s, r, url)
            else Served(s, r) in {Denied(405), Denied(400), Denied(421), Returned(414)}
  {
    hide Route, AmbiguousPrefix, ChallengePrefix, ChallengeTarget, Authorities, ProbeAnswered, Redirection;
    hide ProbeRules, SeamRules, BackendRules, AdmissionRules, MethodRules, RewriteRules, NativeRules, Rules;
    var url := Url(r, !s.lifecycle.Legacy?);
    var backends, seam, probe := BackendRules(s), SeamRules(s), ProbeRules(s);
    var afterProbe := seam + backends;
    var afterAdmission := probe + afterProbe;
    var afterRewrite := AdmissionRules() + afterAdmission;
    RenderedOrder(s);
    var afterNative := MethodRules() + (RewriteRules(s) + afterRewrite);
    NativeMeaning(s, r, afterNative);
    FirstRules(s, r, afterRewrite);
    if r.verb in METHODS && (s.ha ==> !r.improper && r.sourcePort > 0) {
      AdmissionMeaning(s, r, url, afterAdmission);
      if AdmittedRequest(s, r, url) {
        ProbeMeaning(s, r, url, afterProbe);
        BackendMeaning(s, r, url);
        SeamMeaning(s, r, url);
        if ChallengeTarget(url) {
          TargetIsGuarded(url);
        }
      }
    }
  }

  lemma RenderedOrder(s: Spec)
    ensures Rules(s) == NativeRules(s) + (MethodRules() + (RewriteRules(s) + (AdmissionRules()
                        + (ProbeRules(s) + (SeamRules(s) + BackendRules(s))))))
  {
  }

  lemma NativeMeaning(s: Spec, r: Request, rest: seq<Rule>)
    ensures Route(NativeRules(s) + rest, s, r, r.target) ==
            if s.ha && (r.improper || r.sourcePort == 0) then Denied(400) else Route(rest, s, r, r.target)
  {
    var port := [Rule(Deny(400), [Not(SourcePort)])];
    assert s.ha ==> NativeRules(s) + rest == [Rule(Deny(400), [Is(ImproperSource)])] + (port + rest);
    assert [] + rest == rest;
    StepOn(Deny(400), [Not(SourcePort)], rest, s, r, r.target);
    StepOn(Deny(400), [Is(ImproperSource)], port + rest, s, r, r.target);
  }

  lemma FirstRules(s: Spec, r: Request, rest: seq<Rule>)
    ensures Route(MethodRules() + (RewriteRules(s) + rest), s, r, r.target) ==
            if r.verb !in METHODS then Denied(405) else Route(rest, s, r, Url(r, !s.lifecycle.Legacy?))
  {
    var rewrite := Rule(SetUri, [Is(Http2)]);
    StepOn(Deny(405), [Not(SupportedMethod)], RewriteRules(s) + rest, s, r, r.target);
    assert [] + rest == rest;
    Step(rewrite, rest, s, r, r.target);
    assert Is(Http2) in rewrite.conditions;
    assert Applies(rewrite, s, r, r.target) <==> Satisfied(Is(Http2), s, r, r.target);
  }

  lemma SeamMeaning(s: Spec, r: Request, url: string)
    requires AdmittedRequest(s, r, url)
    ensures Route(SeamRules(s) + BackendRules(s), s, r, url) ==
            if s.lifecycle.Legacy? then Route(BackendRules(s), s, r, url)
            else if AmbiguousPrefix(url) || (ChallengePrefix(url) && !ChallengeTarget(url)) then Denied(400)
            else if ChallengePrefix(url) && r.verb != "GET" then Denied(405)
            else if r.tls then (if ChallengeTarget(url) then Denied(404) else Route(BackendRules(s), s, r, url))
            else if ChallengeTarget(url) then Route(BackendRules(s), s, r, url)
            else Redirected(Redirection(s, r, url))
  {
    if ChallengeTarget(url) {
      TargetIsGuarded(url);
    }
    hide Route, ChallengePrefix, ChallengeTarget, AmbiguousPrefix, AdmittedRequest;
    assert [] + BackendRules(s) == BackendRules(s);
    if !s.lifecycle.Legacy? {
      assert SeamRules(s) + BackendRules(s) == GuardRules() + (RedirectRules(s) + BackendRules(s));
      hide GuardRules, RedirectRules, BackendRules, Redirection;
      GuardMeaning(s, r, url, RedirectRules(s) + BackendRules(s));
      RedirectMeaning(s, r, url, BackendRules(s));
    }
  }

  // ---------- What is promised ----------

  /** No plaintext request reaches a product backend. */
  lemma NoPlaintextProduct(s: Spec, r: Request)
    requires !s.lifecycle.Legacy? && !r.tls
    ensures Served(s, r) != Routed(Frontend) && Served(s, r) != Routed(Api)
  {
    hide AmbiguousPrefix, ChallengePrefix, ChallengeTarget, AdmittedRequest, ProbeAnswered, Served, Redirection;
    RoutingMeaning(s, r);
  }

  /** The challenge backend receives exactly the admitted plaintext GETs of an exact challenge path. */
  lemma ChallengesOnly(s: Spec, r: Request)
    ensures Served(s, r) == Routed(Acme) <==>
            && !s.lifecycle.Legacy? && !r.tls && r.verb == "GET"
            && ChallengeTarget(Url(r, true)) && AdmittedRequest(s, r, Url(r, true))
  {
    var url := Url(r, !s.lifecycle.Legacy?);
    if ChallengeTarget(url) {
      TargetIsGuarded(url);
      TargetIsNoProbe(url);
    }
    hide AmbiguousPrefix, ChallengePrefix, ChallengeTarget, AdmittedRequest, Served, Redirection, PathOf;
    RoutingMeaning(s, r);
  }

  lemma TargetIsNoProbe(url: string)
    requires ChallengeTarget(url)
    ensures PathOf(url) != "/_secpal/proxy-generation"
  {
    TargetIsPlain(url);
    PathWithoutQuery(url);
    hide PathOf;
    assert url[1] == CHALLENGE[1] == '.';
  }

  /** A product backend receives exactly its own origin's admitted requests over TLS, outside the challenge paths. */
  lemma ProductsOnly(s: Spec, r: Request, backend: Backend)
    requires !s.lifecycle.Legacy? && backend != Acme
    ensures Served(s, r) == Routed(backend) <==>
            && r.tls && AdmittedRequest(s, r, Url(r, true)) && !ProbeAnswered(s, r, Url(r, true))
            && !AmbiguousPrefix(Url(r, true)) && !ChallengePrefix(Url(r, true))
            && r.hosts[0] in Authorities(if backend.Frontend? then s.routing.frontendHost else s.routing.apiHost)
  {
    var url := Url(r, true);
    if ChallengeTarget(url) {
      TargetIsGuarded(url);
    }
    OriginsDisjoint(s.routing);
    hide AmbiguousPrefix, ChallengePrefix, ChallengeTarget, Served, Redirection, ProbeAnswered, Authorities;
    RoutingMeaning(s, r);
  }

  /** A target that cannot be decoded meets no guard: over TLS it goes to its origin's product backend. */
  lemma MalformedEscapeRouted(s: Spec, r: Request)
    requires !s.lifecycle.Legacy? && r.tls && AdmittedRequest(s, r, Url(r, true)) && !ProbeAnswered(s, r, Url(r, true))
    requires UrlDecoded(PathOf(Url(r, true))).None?
    ensures Served(s, r) == Routed(if r.hosts[0] in Authorities(s.routing.frontendHost) then Frontend else Api)
  {
    hide Served, Redirection, ProbeAnswered, Authorities, AdmittedRequest, PathOf, UrlDecoded, BeginsLike;
    RoutingMeaning(s, r);
    if ChallengeTarget(Url(r, true)) {
      TargetIsGuarded(Url(r, true));
    }
  }

  lemma MalformedExample()
    ensures UrlDecoded(PathOf(CHALLENGE_PREFIX + "%zz")).None?
  {
    var escape := "%zz";
    assert UrlDecoded(escape).None?;
    assert '?' !in CHALLENGE_PREFIX + escape;
    PathWithoutQuery(CHALLENGE_PREFIX + escape);
    assert '%' !in CHALLENGE_PREFIX;
    DecodedFails(CHALLENGE_PREFIX, escape);
  }

  lemma {:induction false} DecodedFails(plain: string, rest: string)
    requires '%' !in plain && UrlDecoded(rest).None?
    ensures UrlDecoded(plain + rest).None?
  {
    if plain == "" {
      assert plain + rest == rest;
    } else {
      assert plain[0] in plain && (plain + rest)[1..] == plain[1..] + rest;
      DecodedFails(plain[1..], rest);
    }
  }
}
