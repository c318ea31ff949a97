/**
  The host ingress policy as an ordered rule list, and what the kernel decides with it
  (scripts/host_firewall_contract.py).
 */
module HostFirewallPolicy {
  import opened Common
  import opened Cidr
  import PrefixLkg

  const MAX_DECISIONS := 4096
  const MAX_TTL := 3600

  datatype EdgeMode = Direct | Protected

  datatype Configuration = Configuration(mode: EdgeMode, management4: seq<Network>, management6: seq<Network>,
                                         interfaces: seq<string>)

  // ---------- Admission ----------

  predicate InterfaceCharacter(c: char) {
    'A' <= c <= 'Z' || 'a' <= c <= 'z' || '0' <= c <= '9' || c in "_.:-"
  }

  predicate InterfaceName(name: string) {
    1 <= |name| <= 15 && name != "lo" && forall c :: c in name ==> InterfaceCharacter(c)
  }

  predicate ManagementList(networks: seq<Network>, family: Family) {
    && |networks| <= 64
    && (forall n | n in networks :: n.family == family && n.prefix != [])
    && (forall i, j | 0 <= i < j < |networks| :: networks[i] != networks[j])
  }

  predicate AdmitConfiguration(c: Configuration) {
    && 1 <= |c.interfaces| <= 8
    && (forall name | name in c.interfaces :: InterfaceName(name))
    && (forall i, j | 0 <= i < j < |c.interfaces| :: TextBefore(c.interfaces[i], c.interfaces[j]))
    && ManagementList(c.management4, V4) && ManagementList(c.management6, V6)
    && (c.management4 != [] || c.management6 != [])
  }

  /** PROTECTED needs an authenticated publication; DIRECT must not be given one. */
  predicate AdmitScope(c: Configuration, source: Option<PrefixLkg.Candidate>) {
    && AdmitConfiguration(c)
    && (c.mode.Protected? ==> source.Some? && PrefixLkg.ValidCandidate(source.value))
    && (c.mode.Direct? ==> source.None?)
  }

  function Management(c: Configuration): set<Network> {
    Elements(c.management4) + Elements(c.management6)
  }

  function Origins(source: Option<PrefixLkg.Candidate>): set<Network> {
    if source.None? then {} else Elements(source.value.material.ipv4) + Elements(source.value.material.ipv6)
  }

  // ---------- Rules ----------

  datatype IcmpKind =
    | DestinationUnreachable | TimeExceeded | ParameterProblem | PacketTooBig
    | NeighborSolicit | NeighborAdvert | RouterAdvert | OtherKind

  datatype Expression =
    | CtInvalid
    | CtReply
    | CtEstablished
    | Interface(name: string)
    | Ipv4
    | Source(network: Network)
    | Remediated(family: Family)
    | UdpPorts(source: nat, target: nat)
    | TcpTarget(ports: set<nat>)
    | IcmpType(kinds: set<IcmpKind>)
    | Icmp6Type(kinds: set<IcmpKind>)
    | HopLimit(value: nat)

  datatype Verdict = Accept | Drop

  datatype Chain = Ingress | Transit

  datatype Object =
    | Table
    | BaseChain(chain: Chain)
    | DecisionSet(family: Family, timeout: nat, size: nat)
    | Rule(chain: Chain, expressions: seq<Expression>, verdict: Verdict)

  function Zeros(n: nat): (bits: seq<bool>)
    ensures |bits| == n
  {
    if n == 0 then [] else [false] + Zeros(n - 1)
  }

  function Octet(b: nat): (bits: seq<bool>)
    ensures |bits| == 8
  {
    [b / 128 % 2 == 1, b / 64 % 2 == 1, b / 32 % 2 == 1, b / 16 % 2 == 1,
     b / 8 % 2 == 1, b / 4 % 2 == 1, b / 2 % 2 == 1, b % 2 == 1]
  }

  /** 127.0.0.0/8, ::1/128 and fe80::/10. */
  const LOOPBACK4: Network := Network(V4, Octet(127))
  const LOOPBACK6: Network := Network(V6, Zeros(127) + [true])
  const LINK_LOCAL: Network := Network(V6, Octet(254) + Octet(128)[..2])

  const STRUCTURE: seq<Object> :=
    [Table, BaseChain(Ingress), BaseChain(Transit),
     DecisionSet(V4, MAX_TTL, MAX_DECISIONS), DecisionSet(V6, MAX_TTL, MAX_DECISIONS)]

  function Allow(expressions: seq<Expression>): Object {
    Rule(Ingress, expressions, Accept)
  }

  function Deny(expressions: seq<Expression>): Object {
    Rule(Ingress, expressions, Drop)
  }

  const GUARDS: seq<Object> :=
    [Deny([CtInvalid]), Allow([Interface("lo")]), Deny([Source(LOOPBACK4)]), Deny([Source(LOOPBACK6)])]

  function DhcpRules(interfaces: seq<string>): seq<Object> {
    if interfaces == [] then []
    else
      DhcpRules(interfaces[..|interfaces| - 1]) +
      [Allow([Interface(interfaces[|interfaces| - 1]), Ipv4, UdpPorts(67, 68)]),
       Allow([Interface(interfaces[|interfaces| - 1]), Source(LINK_LOCAL), UdpPorts(547, 546)])]
  }

  function SourceRules(networks: seq<Network>, port: nat): seq<Object> {
    seq(|networks|, i requires 0 <= i < |networks| => Allow([Source(networks[i]), TcpTarget({port})]))
  }

  const REMEDIATION: seq<Object> := [Deny([Remediated(V4)]), Deny([Remediated(V6)])]

  const REPLIES: seq<Object> := [Allow([CtReply, CtEstablished])]

  const ERRORS: seq<Object> :=
    [Allow([IcmpType({DestinationUnreachable, TimeExceeded, ParameterProblem})]),
     Allow([Icmp6Type({DestinationUnreachable, PacketTooBig, TimeExceeded, ParameterProblem})])]

  const DISCOVERY: seq<Object> :=
    [Allow([HopLimit(255), Icmp6Type({NeighborSolicit, NeighborAdvert})]),
     Allow([Source(LINK_LOCAL), HopLimit(255), Icmp6Type({RouterAdvert})])]

  const ESSENTIALS: seq<Object> := REPLIES + ERRORS + DISCOVERY

  function PublicRules(c: Configuration, source: Option<PrefixLkg.Candidate>): seq<Object> {
    if c.mode.Direct? then [Allow([TcpTarget({80, 443})])]
    else if source.None? then []
    else SourceRules(source.value.material.ipv4, 443) + SourceRules(source.value.material.ipv6, 443)
  }

  function Rules(c: Configuration, source: Option<PrefixLkg.Candidate>): seq<Object> {
    GUARDS + DhcpRules(c.interfaces) + SourceRules(c.management4, 22) + SourceRules(c.management6, 22)
    + REMEDIATION + ESSENTIALS + PublicRules(c, source)
  }

  function Policy(c: Configuration, source: Option<PrefixLkg.Candidate>): seq<Object> {
    STRUCTURE + Rules(c, source)
  }

  lemma InOneList(a: seq<Object>, b: seq<Object>, c: seq<Object>, d: seq<Object>, e: seq<Object>, f: seq<Object>,
                  g: seq<Object>, h: seq<Object>)
    ensures a + b + c + d + e + f + g + h == a + (b + c + d + e + f + g + h)
  {
  }

  /** The list as it is appended to, loop by loop. */
  method BuildPolicy(c: Configuration, source: Option<PrefixLkg.Candidate>) returns (r: Result<seq<Object>, ()>)
    ensures r.Success? <==> AdmitScope(c, source)
    ensures r.Success? ==> r.value == Policy(c, source)
  {
    if !AdmitScope(c, source) {
      return Failure(());
    }
    var objects := AppendDhcp(STRUCTURE + GUARDS, c.interfaces);
    objects := AppendSources(objects, c.management4, 22);
    objects := AppendSources(objects, c.management6, 22);
    objects := AppendPublic(objects + REMEDIATION + ESSENTIALS, c, source);
    InOneList(STRUCTURE, GUARDS, DhcpRules(c.interfaces), SourceRules(c.management4, 22),
              SourceRules(c.management6, 22), REMEDIATION, ESSENTIALS, PublicRules(c, source));
    r := Success(objects);
  }

  method AppendDhcp(before: seq<Object>, interfaces: seq<string>) returns (objects: seq<Object>)
    ensures objects == before + DhcpRules(interfaces)
  {
    objects := before;
    for i := 0 to |interfaces|
      invariant objects == before + DhcpRules(interfaces[..i])
    {
      var uplink := Interface(interfaces[i]);
      assert interfaces[..i + 1][..i] == interfaces[..i];
      objects := objects + [Allow([uplink, Ipv4, UdpPorts(67, 68)])];
      objects := objects + [Allow([uplink, Source(LINK_LOCAL), UdpPorts(547, 546)])];
    }
    assert interfaces[..|interfaces|] == interfaces;
  }

  method AppendPublic(before: seq<Object>, c: Configuration, source: Option<PrefixLkg.Candidate>)
    returns (objects: seq<Object>)
    requires c.mode.Protected? ==> source.Some?
    ensures objects == before + PublicRules(c, source)
  {
    if c.mode.Direct? {
      objects := before + [Allow([TcpTarget({80, 443})])];
    } else {
      objects := AppendSources(before, source.value.material.ipv4, 443);
      objects := AppendSources(objects, source.value.material.ipv6, 443);
    }
  }

  method AppendSources(before: seq<Object>, networks: seq<Network>, port: nat) returns (objects: seq<Object>)
    ensures objects == before + SourceRules(networks, port)
  {
    objects := before;
    for i := 0 to |networks|
      invariant objects == before + SourceRules(networks, port)[..i]
    {
      objects := objects + [Allow([Source(networks[i]), TcpTarget({port})])];
    }
  }

  // ---------- Installing it in one transaction ----------

  datatype Command = Create(item: Object) | Flush(chain: Chain) | Add(rule: Object)

  function Declarations(objects: seq<Object>): seq<Object> {
    if objects == [] then []
    else Declarations(objects[..|objects| - 1]) + if objects[|objects| - 1].Rule? then [] else [objects[|objects| - 1]]
  }

  function RulesOf(objects: seq<Object>): seq<Object> {
    if objects == [] then []
    else RulesOf(objects[..|objects| - 1]) + if objects[|objects| - 1].Rule? then [objects[|objects| - 1]] else []
  }

  function Creates(objects: seq<Object>): seq<Command> {
    if objects == [] then [] else Creates(objects[..|objects| - 1]) + [Create(objects[|objects| - 1])]
  }

  function Adds(objects: seq<Object>): seq<Command> {
    if objects == [] then [] else Adds(objects[..|objects| - 1]) + [Add(objects[|objects| - 1])]
  }

  function Batch(objects: seq<Object>, initial: bool): seq<Command> {
    (if initial then Creates(Declarations(objects)) else [Flush(Ingress), Flush(Transit)]) + Adds(RulesOf(objects))
  }

  lemma Appended(objects: seq<Object>, o: Object)
    ensures Declarations(objects + [o]) == Declarations(objects) + if o.Rule? then [] else [o]
    ensures RulesOf(objects + [o]) == RulesOf(objects) + if o.Rule? then [o] else []
    ensures forall chain ::
      WithoutRules(objects + [o], chain) == WithoutRules(objects, chain) + if o.Rule? && o.chain == chain then [] else [o]
  {
    assert (objects + [o])[..|objects|] == objects;
  }

  lemma CreatesAppend(objects: seq<Object>, o: Object)
    ensures Creates(objects + [o]) == Creates(objects) + [Create(o)]
  {
    assert (objects + [o])[..|objects|] == objects;
  }

  lemma AddsAppend(objects: seq<Object>, o: Object)
    ensures Adds(objects + [o]) == Adds(objects) + [Add(o)]
  {
    assert (objects + [o])[..|objects|] == objects;
  }

  method BuildBatch(objects: seq<Object>, initial: bool) returns (commands: seq<Command>)
    ensures commands == Batch(objects, initial)
  {
    commands := [];
    if initial {
      for i := 0 to |objects|
        invariant commands == Creates(Declarations(objects[..i]))
      {
        assert objects[..i + 1] == objects[..i] + [objects[i]];
        Appended(objects[..i], objects[i]);
        if !objects[i].Rule? {
          CreatesAppend(Declarations(objects[..i]), objects[i]);
          commands := commands + [Create(objects[i])];
        } else {
          assert Declarations(objects[..i + 1]) == Declarations(objects[..i]);
        }
      }
      assert objects[..|objects|] == objects;
    } else {
      commands := [Flush(Ingress), Flush(Transit)];
    }
    commands := ExtendWithRules(commands, objects);
  }

  method ExtendWithRules(before: seq<Command>, objects: seq<Object>) returns (commands: seq<Command>)
    ensures commands == before + Adds(RulesOf(objects))
  {
    commands := before;
    for i := 0 to |objects|
      invariant commands == before + Adds(RulesOf(objects[..i]))
    {
      assert objects[..i + 1] == objects[..i] + [objects[i]];
      Appended(objects[..i], objects[i]);
      if objects[i].Rule? {
        AddsAppend(RulesOf(objects[..i]), objects[i]);
        commands := commands + [Add(objects[i])];
      } else {
        assert RulesOf(objects[..i + 1]) == RulesOf(objects[..i]);
      }
    }
    assert objects[..|objects|] == objects;
  }

  /** Do two declarations claim the same name? */
  predicate SameName(a: Object, b: Object) {
    || (a.Table? && b.Table?)
    || (a.BaseChain? && b.BaseChain? && a.chain == b.chain)
    || (a.DecisionSet? && b.DecisionSet? && a.family == b.family)
  }

  function WithoutRules(objects: seq<Object>, chain: Chain): seq<Object> {
    if objects == [] then []
    else
      WithoutRules(objects[..|objects| - 1], chain) +
      if objects[|objects| - 1].Rule? && objects[|objects| - 1].chain == chain then [] else [objects[|objects| - 1]]
  }

  /** One command on the table's listing; the empty listing is an absent table. None is a rejection. */
  function Step(command: Command, objects: seq<Object>): Option<seq<Object>> {
    match command
    case Create(o) =>
      if (exists x :: x in objects && SameName(x, o)) || (!o.Table? && Table !in objects) then None
      else Some(objects + [o])
    case Flush(chain) =>
      if BaseChain(chain) in objects then Some(WithoutRules(objects, chain)) else None
    case Add(rule) =>
      if rule.Rule? && BaseChain(rule.chain) in objects then Some(objects + [rule]) else None
  }

  /** A batch is atomic: it takes effect as a whole or not at all. */
  function Execute(commands: seq<Command>, objects: seq<Object>): Option<seq<Object>> {
    if commands == [] then Some(objects)
    else
      var before := Execute(commands[..|commands| - 1], objects);
      if before.None? then None else Step(commands[|commands| - 1], before.value)
  }

  lemma {:induction false} ExecuteConcat(a: seq<Command>, b: seq<Command>, objects: seq<Object>)
    ensures Execute(a + b, objects) ==
            if Execute(a, objects).None? then None else Execute(b, Execute(a, objects).value)
  {
    if b == [] {
      assert a + b == a;
    } else {
      assert (a + b)[..|a + b| - 1] == a + b[..|b| - 1];
      ExecuteConcat(a, b[..|b| - 1], objects);
    }
  }

  lemma ExecuteAppend(commands: seq<Command>, last: Command, objects: seq<Object>)
    ensures Execute(commands + [last], objects) ==
            if Execute(commands, objects).None? then None else Step(last, Execute(commands, objects).value)
  {
    assert (commands + [last])[..|commands|] == commands;
  }

  lemma {:induction false} AddsExtend(rules: seq<Object>, objects: seq<Object>)
    requires BaseChain(Ingress) in objects && IngressRules(rules)
    ensures Execute(Adds(rules), objects) == Some(objects + rules)
  {
    if rules == [] {
      assert objects + rules == objects;
    } else {
      var before, last := rules[..|rules| - 1], rules[|rules| - 1];
      assert rules == before + [last];
      AddsExtend(before, objects);
      AddsAppend(before, last);
      ExecuteAppend(Adds(before), Add(last), objects);
      assert objects + rules == (objects + before) + [last];
    }
  }

  ghost predicate IngressRules(rules: seq<Object>) {
    forall o :: o in rules ==> o.Rule? && o.chain.Ingress?
  }

  /** Every rule of the policy sits in the ingress chain. */
  lemma RulesAreIngress(c: Configuration, source: Option<PrefixLkg.Candidate>)
    ensures IngressRules(Rules(c, source))
  {
    DhcpRulesAreIngress(c.interfaces);
    FixedRulesAreIngress();
    assert IngressRules(SourceRules(c.management4, 22)) && IngressRules(SourceRules(c.management6, 22));
    assert IngressRules(PublicRules(c, source));
    hide GUARDS, REMEDIATION, ESSENTIALS, DhcpRules, SourceRules, PublicRules;
  }

  lemma FixedRulesAreIngress()
    ensures IngressRules(GUARDS) && IngressRules(REMEDIATION) && IngressRules(ESSENTIALS)
  {
  }

  lemma {:induction false} DhcpRulesAreIngress(interfaces: seq<string>)
    ensures IngressRules(DhcpRules(interfaces))
  {
    if interfaces != [] {
      DhcpRulesAreIngress(interfaces[..|interfaces| - 1]);
    }
  }

  /** Splitting a listing into its declarations and its rules. */
  lemma {:induction false} SplitPolicy(rules: seq<Object>)
    requires IngressRules(rules)
    ensures Declarations(STRUCTURE + rules) == STRUCTURE
    ensures RulesOf(STRUCTURE + rules) == rules
    ensures WithoutRules(STRUCTURE + rules, Ingress) == STRUCTURE
  {
    if rules == [] {
      assert STRUCTURE + rules == STRUCTURE;
      StructureSplits();
    } else {
      var before, last := rules[..|rules| - 1], rules[|rules| - 1];
      assert STRUCTURE + rules == STRUCTURE + before + [last];
      SplitPolicy(before);
      Appended(STRUCTURE + before, last);
    }
  }

  lemma {:induction false} DeclaredOnly(objects: seq<Object>)
    requires forall o :: o in objects ==> !o.Rule?
    ensures Declarations(objects) == objects && RulesOf(objects) == []
    ensures forall chain :: WithoutRules(objects, chain) == objects
  {
    if objects != [] {
      var before, last := objects[..|objects| - 1], objects[|objects| - 1];
      assert objects == before + [last];
      DeclaredOnly(before);
      Appended(before, last);
    }
  }

  lemma StructureSplits()
    ensures Declarations(STRUCTURE) == STRUCTURE && RulesOf(STRUCTURE) == []
    ensures forall chain :: WithoutRules(STRUCTURE, chain) == STRUCTURE
  {
    DeclaredOnly(STRUCTURE);
  }

  /** Declarations with distinct names, the table first, can be created in order from nothing. */
  lemma {:induction false} CreatesExtend(objects: seq<Object>)
    requires forall i, j :: 0 <= i < j < |objects| ==> !SameName(objects[i], objects[j])
    requires forall i :: 0 <= i < |objects| ==> (objects[i].Table? <==> i == 0)
    ensures Execute(Creates(objects), []) == Some(objects)
  {
    if objects != [] {
      var before, last := objects[..|objects| - 1], objects[|objects| - 1];
      assert objects == before + [last];
      CreatesExtend(before);
      CreatesAppend(before, last);
      ExecuteAppend(Creates(before), Create(last), []);
      assert before != [] ==> before[0] == Table;
    }
  }

  lemma StructureFlushed(rules: seq<Object>)
    requires IngressRules(rules)
    ensures Execute([Flush(Ingress), Flush(Transit)], STRUCTURE + rules) == Some(STRUCTURE)
  {
    SplitPolicy(rules);
    StructureSplits();
    assert BaseChain(Ingress) == (STRUCTURE + rules)[1] && BaseChain(Transit) == STRUCTURE[2];
    ExecuteAppend([], Flush(Ingress), STRUCTURE + rules);
    ExecuteAppend([Flush(Ingress)], Flush(Transit), STRUCTURE + rules);
    assert [] + [Flush(Ingress)] == [Flush(Ingress)];
    assert [Flush(Ingress)] + [Flush(Transit)] == [Flush(Ingress), Flush(Transit)];
  }

  lemma RulesInstalled(rules: seq<Object>, before: seq<Object>)
    requires IngressRules(rules) && IngressRules(before)
    ensures Execute(Batch(STRUCTURE + rules, true), []) == Some(STRUCTURE + rules)
    ensures Execute(Batch(STRUCTURE + rules, false), STRUCTURE + before) == Some(STRUCTURE + rules)
  {
    hide Execute, Creates, Adds, Declarations, RulesOf, WithoutRules, IngressRules;
    SplitPolicy(rules);
    assert BaseChain(Ingress) == STRUCTURE[1];
    AddsExtend(rules, STRUCTURE);
    CreatesExtend(STRUCTURE);
    ExecuteConcat(Creates(STRUCTURE), Adds(rules), []);
    StructureFlushed(before);
    ExecuteConcat([Flush(Ingress), Flush(Transit)], Adds(rules), STRUCTURE + before);
  }

  /** The initial batch creates the policy from nothing; the other replaces any policy by another. */
  lemma BatchInstalls(c: Configuration, source: Option<PrefixLkg.Candidate>, previous: Configuration,
                      previousSource: Option<PrefixLkg.Candidate>)
    ensures Execute(Batch(Policy(c, source), true), []) == Some(Policy(c, source))
    ensures Execute(Batch(Policy(c, source), false), Policy(previous, previousSource)) == Some(Policy(c, source))
  {
    RulesAreIngress(c, source);
    RulesAreIngress(previous, previousSource);
    RulesInstalled(Rules(c, source), Rules(previous, previousSource));
  }

  // ---------- Reading it back ----------

  /** A row of the kernel's JSON listing. Handles are assigned by the kernel. */
  datatype Row = Metainfo(schema: int) | Listed(item: Object, handle: Option<nat>) | Foreign

  predicate Readable(row: Row) {
    match row
    case Metainfo(schema) => schema == 1
    case Listed(_, _) => true
    case Foreign => false
  }

  function Objects(rows: seq<Row>): seq<Object> {
    if rows == [] then []
    else Objects(rows[..|rows| - 1]) + if rows[|rows| - 1].Listed? then [rows[|rows| - 1].item] else []
  }

  method NormalizeTable(rows: seq<Row>) returns (r: Result<seq<Object>, ()>)
    ensures r.Success? <==> forall row :: row in rows ==> Readable(row)
    ensures r.Success? ==> r.value == Objects(rows)
  {
    var objects: seq<Object> := [];
    for i := 0 to |rows|
      invariant forall row :: row in rows[..i] ==> Readable(row)
      invariant objects == Objects(rows[..i])
    {
      assert rows[..i + 1][..i] == rows[..i];
      if !Readable(rows[i]) {
        return Failure(());
      }
      if rows[i].Listed? {
        objects := objects + [rows[i].item];
      }
    }
    assert rows[..|rows|] == rows;
    r := Success(objects);
  }

  /** How the kernel lists a table: its schema, then every object under some handle. */
  function Listing(objects: seq<Object>, handles: nat -> Option<nat>): seq<Row> {
    if objects == [] then [Metainfo(1)]
    else Listing(objects[..|objects| - 1], handles) + [Listed(objects[|objects| - 1], handles(|objects|))]
  }

  /** Nothing the kernel reports is lost or invented by normalising, whatever the handles. */
  lemma {:induction false} ListingReadsBack(objects: seq<Object>, handles: nat -> Option<nat>)
    ensures forall row :: row in Listing(objects, handles) ==> Readable(row)
    ensures Objects(Listing(objects, handles)) == objects
  {
    var rows := Listing(objects, handles);
    if objects == [] {
      assert rows[..0] == [];
    } else {
      ListingReadsBack(objects[..|objects| - 1], handles);
      assert rows[..|rows| - 1] == Listing(objects[..|objects| - 1], handles);
      assert objects == objects[..|objects| - 1] + [objects[|objects| - 1]];
    }
  }

  // ---------- What the kernel does with a packet ----------

  datatype CtState = New | Established | Related | Invalid | Untracked

  datatype Payload =
    | Tcp(target: nat)
    | Udp(source: nat, target: nat)
    | Icmp(kind: IcmpKind)
    | Icmp6(kind: IcmpKind)
    | OtherProtocol

  datatype Packet = Packet(interface: string, source: Address, hopLimit: nat, state: CtState, reply: bool,
                           payload: Payload)

  predicate Matches(e: Expression, p: Packet, remediated: set<Address>) {
    match e
    case CtInvalid => p.state.Invalid?
    case CtReply => p.reply
    case CtEstablished => p.state.Established? || p.state.Related?
    case Interface(name) => p.interface == name
    case Ipv4 => p.source.family.V4?
    case Source(network) => Contains(network, p.source)
    case Remediated(family) => p.source.family == family && p.source in remediated
    case UdpPorts(source, target) => p.payload.Udp? && p.payload.source == source && p.payload.target == target
    case TcpTarget(ports) => p.payload.Tcp? && p.payload.target in ports
    case IcmpType(kinds) => p.source.family.V4? && p.payload.Icmp? && p.payload.kind in kinds
    case Icmp6Type(kinds) => p.source.family.V6? && p.payload.Icmp6? && p.payload.kind in kinds
    case HopLimit(value) => p.source.family.V6? && p.hopLimit == value
  }

  predicate RuleMatches(o: Object, chain: Chain, p: Packet, remediated: set<Address>) {
    o.Rule? && o.chain == chain && forall e :: e in o.expressions ==> Matches(e, p, remediated)
  }

  /** The verdict of the first rule that matches, if one does. */
  function Traverse(objects: seq<Object>, chain: Chain, p: Packet, remediated: set<Address>): Option<Verdict> {
    if objects == [] then None
    else if RuleMatches(objects[0], chain, p, remediated) then Some(objects[0].verdict)
    else Traverse(objects[1..], chain, p, remediated)
  }

  /** A base chain's own policy is to drop. */
  predicate Accepts(objects: seq<Object>, chain: Chain, p: Packet, remediated: set<Address>) {
    Traverse(objects, chain, p, remediated) == Some(Accept)
  }

  // ---------- What the policy means ----------

  predicate FromLoopback(p: Packet) {
    Contains(LOOPBACK4, p.source) || Contains(LOOPBACK6, p.source)
  }

  predicate DhcpReply(interfaces: seq<string>, p: Packet) {
    && p.interface in interfaces
    && p.payload.Udp?
    && ((p.source.family.V4? && p.payload.source == 67 && p.payload.target == 68)
        || (Contains(LINK_LOCAL, p.source) && p.payload.source == 547 && p.payload.target == 546))
  }

  predicate FromManagement(c: Configuration, p: Packet) {
    Covers(Management(c), p.source) && p.payload.Tcp? && p.payload.target == 22
  }

  predicate Reply(p: Packet) {
    p.reply && (p.state.Established? || p.state.Related?)
  }

  predicate ErrorReport(p: Packet) {
    || (p.source.family.V4? && p.payload.Icmp?
        && p.payload.kind in {DestinationUnreachable, TimeExceeded, ParameterProblem})
    || (p.source.family.V6? && p.payload.Icmp6?
        && p.payload.kind in {DestinationUnreachable, PacketTooBig, TimeExceeded, ParameterProblem})
  }

  predicate Discovery(p: Packet) {
    && p.source.family.V6? && p.payload.Icmp6? && p.hopLimit == 255
    && (|| p.payload.kind in {NeighborSolicit, NeighborAdvert}
        || (p.payload.kind == RouterAdvert && Contains(LINK_LOCAL, p.source)))
  }

  predicate Essential(p: Packet) {
    Reply(p) || ErrorReport(p) || Discovery(p)
  }

  predicate PublicRequest(c: Configuration, source: Option<PrefixLkg.Candidate>, p: Packet) {
    && p.payload.Tcp?
    && if c.mode.Direct? then p.payload.target in {80, 443}
       else p.payload.target == 443 && Covers(Origins(source), p.source)
  }

  /** The decision stated outright, in the documented order of precedence. */
  predicate Admitted(c: Configuration, source: Option<PrefixLkg.Candidate>, p: Packet, remediated: set<Address>) {
    && !p.state.Invalid?
    && (|| p.interface == "lo"
        || (&& !FromLoopback(p)
            && (|| DhcpReply(c.interfaces, p)
                || FromManagement(c, p)
                || (&& p.source !in remediated
                    && (Essential(p) || PublicRequest(c, source, p))))))
  }

  /** A list decides before the list appended to it. */
  lemma {:induction false} TraverseConcat(a: seq<Object>, b: seq<Object>, chain: Chain, p: Packet,
                                          remediated: set<Address>)
    ensures Traverse(a + b, chain, p, remediated) ==
            if Traverse(a, chain, p, remediated).Some? then Traverse(a, chain, p, remediated)
            else Traverse(b, chain, p, remediated)
  {
    if a == [] {
      assert a + b == b;
    } else {
      assert (a + b)[1..] == a[1..] + b;
      TraverseConcat(a[1..], b, chain, p, remediated);
    }
  }

  lemma TraverseAt(objects: seq<Object>, i: nat, chain: Chain, p: Packet, remediated: set<Address>)
    requires i < |objects|
    ensures Traverse(objects[i..], chain, p, remediated) ==
            if RuleMatches(objects[i], chain, p, remediated) then Some(objects[i].verdict)
            else Traverse(objects[i + 1..], chain, p, remediated)
  {
    assert objects[i..][1..] == objects[i + 1..];
  }

  /** A rule matches when its one, two or three expressions do. */
  lemma RuleOf(es: seq<Expression>, verdict: Verdict, p: Packet, remediated: set<Address>)
    requires 1 <= |es| <= 3
    ensures RuleMatches(Rule(Ingress, es, verdict), Ingress, p, remediated) <==>
            && Matches(es[0], p, remediated)
            && (|es| > 1 ==> Matches(es[1], p, remediated))
            && (|es| > 2 ==> Matches(es[2], p, remediated))
  {
  }

  lemma {:induction false} DhcpVerdict(interfaces: seq<string>, p: Packet, remediated: set<Address>)
    ensures Traverse(DhcpRules(interfaces), Ingress, p, remediated) ==
            if DhcpReply(interfaces, p) then Some(Accept) else None
  {
    if interfaces != [] {
      var before, name := interfaces[..|interfaces| - 1], interfaces[|interfaces| - 1];
      assert interfaces == before + [name];
      DhcpVerdict(before, p, remediated);
      var v4 := Allow([Interface(name), Ipv4, UdpPorts(67, 68)]);
      var v6 := Allow([Interface(name), Source(LINK_LOCAL), UdpPorts(547, 546)]);
      TraverseConcat(DhcpRules(before), [v4, v6], Ingress, p, remediated);
      RuleOf(v4.expressions, Accept, p, remediated);
      RuleOf(v6.expressions, Accept, p, remediated);
      TwoRules(v4, v6, p, remediated);
    }
  }

  lemma {:induction false} SourcesVerdict(networks: seq<Network>, port: nat, p: Packet, remediated: set<Address>)
    ensures Traverse(SourceRules(networks, port), Ingress, p, remediated) ==
            if Covers(Elements(networks), p.source) && p.payload.Tcp? && p.payload.target == port then Some(Accept)
            else None
  {
    if networks != [] {
      var rest := networks[1..];
      SourcesVerdict(rest, port, p, remediated);
      var rule := Allow([Source(networks[0]), TcpTarget({port})]);
      assert SourceRules(networks, port)[1..] == SourceRules(rest, port);
      RuleOf(rule.expressions, Accept, p, remediated);
      assert networks == [networks[0]] + rest;
      assert Elements(networks) == {networks[0]} + Elements(rest);
      CoversUnion({networks[0]}, Elements(rest), p.source);
    }
  }

  lemma CoversUnion(a: set<Network>, b: set<Network>, address: Address)
    ensures Covers(a + b, address) <==> Covers(a, address) || Covers(b, address)
  {
    forall n | n in a + b && Contains(n, address) ensures Covers(a, address) || Covers(b, address) {}
    forall n | n in a && Contains(n, address) ensures Covers(a + b, address) { assert n in a + b; }
    forall n | n in b && Contains(n, address) ensures Covers(a + b, address) { assert n in a + b; }
  }

  lemma GuardsVerdict(p: Packet, remediated: set<Address>)
    ensures Traverse(GUARDS, Ingress, p, remediated) ==
            if p.state.Invalid? then Some(Drop)
            else if p.interface == "lo" then Some(Accept)
            else if FromLoopback(p) then Some(Drop)
            else None
  {
    forall i: nat | i < |GUARDS| ensures
        && Traverse(GUARDS[i..], Ingress, p, remediated) ==
           (if Matches(GUARDS[i].expressions[0], p, remediated) then Some(GUARDS[i].verdict)
            else Traverse(GUARDS[i + 1..], Ingress, p, remediated))
    {
      TraverseAt(GUARDS, i, Ingress, p, remediated);
      RuleOf(GUARDS[i].expressions, GUARDS[i].verdict, p, remediated);
    }
    assert GUARDS[0..] == GUARDS && GUARDS[4..] == [];
    assert Traverse(GUARDS[3..], Ingress, p, remediated) == if Contains(LOOPBACK6, p.source) then Some(Drop) else None;
    assert Traverse(GUARDS[2..], Ingress, p, remediated) == if FromLoopback(p) then Some(Drop) else None;
  }

  lemma RemediationVerdict(p: Packet, remediated: set<Address>)
    ensures Traverse(REMEDIATION, Ingress, p, remediated) == if p.source in remediated then Some(Drop) else None
  {
    TwoRules(Deny([Remediated(V4)]), Deny([Remediated(V6)]), p, remediated);
    RuleOf([Remediated(V4)], Drop, p, remediated);
    RuleOf([Remediated(V6)], Drop, p, remediated);
  }

  lemma OneRule(es: seq<Expression>, p: Packet, remediated: set<Address>)
    requires 1 <= |es| <= 3
    ensures Traverse([Allow(es)], Ingress, p, remediated) ==
            if RuleMatches(Allow(es), Ingress, p, remediated) then Some(Accept) else None
  {
  }

  lemma TwoRules(a: Object, b: Object, p: Packet, remediated: set<Address>)
    requires a.Rule? && b.Rule?
    ensures Traverse([a, b], Ingress, p, remediated) ==
            if RuleMatches(a, Ingress, p, remediated) then Some(a.verdict)
            else if RuleMatches(b, Ingress, p, remediated) then Some(b.verdict)
            else None
  {
    TraverseAt([a, b], 0, Ingress, p, remediated);
    TraverseAt([a, b], 1, Ingress, p, remediated);
    assert [a, b][0..] == [a, b] && [a, b][2..] == [];
  }

  lemma ErrorsVerdict(p: Packet, remediated: set<Address>)
    ensures Traverse(ERRORS, Ingress, p, remediated) == if ErrorReport(p) then Some(Accept) else None
  {
    TwoRules(ERRORS[0], ERRORS[1], p, remediated);
    RuleOf(ERRORS[0].expressions, Accept, p, remediated);
    RuleOf(ERRORS[1].expressions, Accept, p, remediated);
    assert ERRORS == [ERRORS[0], ERRORS[1]];
  }

  lemma DiscoveryVerdict(p: Packet, remediated: set<Address>)
    ensures Traverse(DISCOVERY, Ingress, p, remediated) == if Discovery(p) then Some(Accept) else None
  {
    TwoRules(DISCOVERY[0], DISCOVERY[1], p, remediated);
    RuleOf(DISCOVERY[0].expressions, Accept, p, remediated);
    RuleOf(DISCOVERY[1].expressions, Accept, p, remediated);
    assert DISCOVERY == [DISCOVERY[0], DISCOVERY[1]];
  }

  lemma EssentialsVerdict(p: Packet, remediated: set<Address>)
    ensures Traverse(ESSENTIALS, Ingress, p, remediated) == if Essential(p) then Some(Accept) else None
  {
    TraverseConcat(REPLIES + ERRORS, DISCOVERY, Ingress, p, remediated);
    TraverseConcat(REPLIES, ERRORS, Ingress, p, remediated);
    RuleOf([CtReply, CtEstablished], Accept, p, remediated);
    OneRule([CtReply, CtEstablished], p, remediated);
    ErrorsVerdict(p, remediated);
    DiscoveryVerdict(p, remediated);
  }

  lemma PublicVerdict(c: Configuration, source: Option<PrefixLkg.Candidate>, p: Packet, remediated: set<Address>)
    ensures Traverse(PublicRules(c, source), Ingress, p, remediated) ==
            if PublicRequest(c, source, p) then Some(Accept) else None
  {
    if c.mode.Direct? {
      RuleOf([TcpTarget({80, 443})], Accept, p, remediated);
      OneRule([TcpTarget({80, 443})], p, remediated);
    } else if source.Some? {
      var m := source.value.material;
      TraverseConcat(SourceRules(m.ipv4, 443), SourceRules(m.ipv6, 443), Ingress, p, remediated);
      SourcesVerdict(m.ipv4, 443, p, remediated);
      SourcesVerdict(m.ipv6, 443, p, remediated);
      CoversUnion(Elements(m.ipv4), Elements(m.ipv6), p.source);
    }
  }

  lemma {:induction false} NoMatchingRule(objects: seq<Object>, chain: Chain, p: Packet, remediated: set<Address>)
    requires forall o :: o in objects && o.Rule? ==> o.chain != chain
    ensures Traverse(objects, chain, p, remediated) == None
  {
    if objects != [] {
      NoMatchingRule(objects[1..], chain, p, remediated);
    }
  }

  /** The management rules of both families together. */
  lemma ManagementVerdict(c: Configuration, p: Packet, remediated: set<Address>)
    ensures Traverse(SourceRules(c.management4, 22) + SourceRules(c.management6, 22), Ingress, p, remediated) ==
            if FromManagement(c, p) then Some(Accept) else None
  {
    TraverseConcat(SourceRules(c.management4, 22), SourceRules(c.management6, 22), Ingress, p, remediated);
    SourcesVerdict(c.management4, 22, p, remediated);
    SourcesVerdict(c.management6, 22, p, remediated);
    CoversUnion(Elements(c.management4), Elements(c.management6), p.source);
  }

  lemma SevenLists(a: seq<Object>, b: seq<Object>, m: seq<Object>, m': seq<Object>, d: seq<Object>, e: seq<Object>,
                   f: seq<Object>, p: Packet, remediated: set<Address>)
    ensures Traverse(a + b + m + m' + d + e + f, Ingress, p, remediated) ==
            if Traverse(a, Ingress, p, remediated).Some? then Traverse(a, Ingress, p, remediated)
            else if Traverse(b, Ingress, p, remediated).Some? then Traverse(b, Ingress, p, remediated)
            else if Traverse(m + m', Ingress, p, remediated).Some? then Traverse(m + m', Ingress, p, remediated)
            else if Traverse(d, Ingress, p, remediated).Some? then Traverse(d, Ingress, p, remediated)
            else if Traverse(e, Ingress, p, remediated).Some? then Traverse(e, Ingress, p, remediated)
            else Traverse(f, Ingress, p, remediated)
  {
    TraverseConcat(a + b + m + m' + d + e, f, Ingress, p, remediated);
    TraverseConcat(a + b + m + m' + d, e, Ingress, p, remediated);
    TraverseConcat(a + b + m + m', d, Ingress, p, remediated);
    assert a + b + m + m' == a + b + (m + m');
    TraverseConcat(a + b, m + m', Ingress, p, remediated);
    TraverseConcat(a, b, Ingress, p, remediated);
  }

  /** What the whole list means, for every packet and every remediation state. */
  lemma PolicyMeaning(c: Configuration, source: Option<PrefixLkg.Candidate>, p: Packet, remediated: set<Address>)
    ensures Accepts(Policy(c, source), Ingress, p, remediated) <==> Admitted(c, source, p, remediated)
  {
    NoMatchingRule(STRUCTURE, Ingress, p, remediated);
    TraverseConcat(STRUCTURE, Rules(c, source), Ingress, p, remediated);
    SevenLists(GUARDS, DhcpRules(c.interfaces), SourceRules(c.management4, 22), SourceRules(c.management6, 22),
               REMEDIATION, ESSENTIALS, PublicRules(c, source), p, remediated);
    GuardsVerdict(p, remediated);
    DhcpVerdict(c.interfaces, p, remediated);
    ManagementVerdict(c, p, remediated);
    RemediationVerdict(p, remediated);
    EssentialsVerdict(p, remediated);
    PublicVerdict(c, source, p, remediated);
  }

  /** Nothing is ever forwarded. */
  lemma NothingInTransit(c: Configuration, source: Option<PrefixLkg.Candidate>, p: Packet, remediated: set<Address>)
    ensures !Accepts(Policy(c, source), Transit, p, remediated)
  {
    RulesAreIngress(c, source);
    NoMatchingRule(Policy(c, source), Transit, p, remediated);
  }

  /** The reading promised for TCP: who may open or continue a connection to this host. */
  lemma TcpOriginalDirection(c: Configuration, source: Option<PrefixLkg.Candidate>, p: Packet, remediated: set<Address>)
    requires p.payload.Tcp? && !p.reply && !p.state.Invalid? && p.interface != "lo" && !FromLoopback(p)
    ensures Accepts(Policy(c, source), Ingress, p, remediated) <==>
            || (Covers(Management(c), p.source) && p.payload.target == 22)
            || (p.source !in remediated
                && if c.mode.Direct? then p.payload.target in {80, 443}
                   else p.payload.target == 443 && Covers(Origins(source), p.source))
  {
    PolicyMeaning(c, source, p, remediated);
  }

  /** A connection some client opened under any earlier policy gets no credit for being established. */
  lemma NoSurvivingConnections(c: Configuration, source: Option<PrefixLkg.Candidate>, p: Packet,
                               remediated: set<Address>, state: CtState)
    requires !p.reply && !p.state.Invalid? && !state.Invalid?
    ensures Accepts(Policy(c, source), Ingress, p, remediated) <==>
            Accepts(Policy(c, source), Ingress, p.(state := state), remediated)
  {
    PolicyMeaning(c, source, p, remediated);
    PolicyMeaning(c, source, p.(state := state), remediated);
  }

  // ---------- Who may be blocked ----------

  const MULTICAST4: Network := Network(V4, Octet(224)[..4])
  const MULTICAST6: Network := Network(V6, Octet(255))

  predicate Ordinary(peer: Address) {
    && !Contains(LOOPBACK4, peer) && !Contains(LOOPBACK6, peer)
    && !Contains(MULTICAST4, peer) && !Contains(MULTICAST6, peer)
    && (exists i :: 0 <= i < |peer.bits| && peer.bits[i])
  }

  function ProtectedNetworks(c: Configuration, source: Option<PrefixLkg.Candidate>): set<Network> {
    Management(c) + Origins(source)
  }

  /** The protected networks of one family, as they are listed. */
  function ProtectedList(c: Configuration, source: Option<PrefixLkg.Candidate>, family: Family): seq<Network> {
    (if family.V4? then c.management4 else c.management6)
    + if source.None? then [] else if family.V4? then source.value.material.ipv4 else source.value.material.ipv6
  }

  lemma ProtectedListed(c: Configuration, source: Option<PrefixLkg.Candidate>, family: Family, n: Network)
    requires AdmitScope(c, source)
    ensures n in ProtectedList(c, source, family) <==> n in ProtectedNetworks(c, source) && n.family == family
  {
  }

  /** The scan over the protected networks of the peer's own family. */
  method Remediation(c: Configuration, source: Option<PrefixLkg.Candidate>, peer: Address, ttl: int)
    returns (r: Result<Family, ()>)
    ensures r.Success? <==>
      AdmitScope(c, source) && Ordinary(peer) && 1 <= ttl <= MAX_TTL && !Covers(ProtectedNetworks(c, source), peer)
    ensures r.Success? ==> r.value == peer.family
  {
    hide AdmitScope, Ordinary;
    if !AdmitScope(c, source) || !Ordinary(peer) || !(1 <= ttl <= MAX_TTL) {
      return Failure(());
    }
    hide ProtectedNetworks;
    var networks := ProtectedList(c, source, peer.family);
    forall n ensures n in networks <==> n in ProtectedNetworks(c, source) && n.family == peer.family {
      ProtectedListed(c, source, peer.family, n);
    }
    hide ProtectedList;
    for i := 0 to |networks|
      invariant forall n :: n in networks[..i] ==> !Contains(n, peer)
    {
      if Contains(networks[i], peer) {
        assert networks[i] in ProtectedNetworks(c, source);
        return Failure(());
      }
    }
    assert networks[..|networks|] == networks;
    r := Success(peer.family);
  }

  /** Blocking an unprotected peer changes nothing for management or for accepted origins. */
  lemma RemediationSparesProtected(c: Configuration, source: Option<PrefixLkg.Candidate>, p: Packet,
                                   remediated: set<Address>)
    requires forall a :: a in remediated ==> !Covers(ProtectedNetworks(c, source), a)
    requires Covers(ProtectedNetworks(c, source), p.source)
    ensures Accepts(Policy(c, source), Ingress, p, remediated) <==> Accepts(Policy(c, source), Ingress, p, {})
  {
    PolicyMeaning(c, source, p, remediated);
    PolicyMeaning(c, source, p, {});
  }
}
