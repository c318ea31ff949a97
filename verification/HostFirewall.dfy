/**
  The controller that keeps the kernel's ingress table and accepted.json in step
  (scripts/host-firewall.py). The state lock is held throughout each operation.

  A native call may fail, or may take effect and lose its acknowledgement. No operation
  does anything after an unhandled failure, so a process stopped at any point leaves
  exactly what a failure of its next native call leaves.
 */
module HostFirewall {
  import opened Common
  import opened Cidr
  import opened HostFirewallPolicy
  import PrefixLkg

  /** The accepted.json document. */
  datatype Document = Document(configuration: Configuration, prefixes: Option<PrefixLkg.Candidate>)

  /** The cached publication is kept across DIRECT without being given authority there. */
  function SourceOf(d: Document): Option<PrefixLkg.Candidate> {
    if d.configuration.mode.Protected? then d.prefixes else None
  }

  function PolicyOf(d: Document): seq<Object> {
    Policy(d.configuration, SourceOf(d))
  }

  lemma PolicyPresent(d: Document)
    ensures PolicyOf(d) != []
  {
  }

  function ProtectedBy(d: Document): set<Network> {
    ProtectedNetworks(d.configuration, SourceOf(d))
  }

  predicate Recordable(d: Document) {
    && (d.prefixes.Some? ==> PrefixLkg.ValidCandidate(d.prefixes.value))
    && AdmitScope(d.configuration, SourceOf(d))
  }

  // ---------- Management is never taken away ----------

  /** `next` still admits every management address and DHCP uplink of `previous`. */
  ghost predicate Preserves(next: Configuration, previous: Configuration) {
    && (forall name :: name in previous.interfaces ==> name in next.interfaces)
    && CoversAll(Management(next), Management(previous))
  }

  lemma PreservesTransitive(a: Configuration, b: Configuration, c: Configuration)
    requires Preserves(c, b) && Preserves(b, a)
    ensures Preserves(c, a)
  {
  }

  lemma PreservesItself(c: Configuration)
    ensures Preserves(c, c)
  {
  }

  /** One family of the transition test, which looks for a single collapsed block per old block. */
  method FamilyPreserved(previous: seq<Network>, next: seq<Network>) returns (ok: bool)
    ensures ok <==> forall n :: n in previous ==> CoversBlock(Elements(next), n)
  {
    var blocks := Collapse(Elements(next));
    for i := 0 to |previous|
      invariant forall n :: n in previous[..i] ==> CoversBlock(Elements(next), n)
    {
      CoveredByOne(previous[i], blocks);
      assert CoversBlock(Elements(next), previous[i]) <==> CoversBlock(blocks, previous[i]);
      if !(exists n :: n in blocks && SubnetOf(previous[i], n)) {
        return false;
      }
    }
    assert previous[..|previous|] == previous;
    ok := true;
  }

  lemma FamiliesTogether(previous: Configuration, next: Configuration)
    requires AdmitConfiguration(previous) && AdmitConfiguration(next)
    ensures CoversAll(Management(next), Management(previous)) <==>
            && (forall n :: n in previous.management4 ==> CoversBlock(Elements(next.management4), n))
            && (forall n :: n in previous.management6 ==> CoversBlock(Elements(next.management6), n))
  {
    var all := Management(next);
    if CoversAll(all, Management(previous)) {
      forall n, a: Address | n in previous.management4 && Contains(n, a)
        ensures Covers(Elements(next.management4), a)
      {
        assert n in Management(previous) && Covers(Management(previous), a);
        var m :| m in all && Contains(m, a);
        assert m in Elements(next.management4);
      }
      forall n, a: Address | n in previous.management6 && Contains(n, a)
        ensures Covers(Elements(next.management6), a)
      {
        assert n in Management(previous) && Covers(Management(previous), a);
        var m :| m in all && Contains(m, a);
        assert m in Elements(next.management6);
      }
    }
    if (forall n :: n in previous.management4 ==> CoversBlock(Elements(next.management4), n))
       && (forall n :: n in previous.management6 ==> CoversBlock(Elements(next.management6), n)) {
      forall a: Address | Covers(Management(previous), a) ensures Covers(all, a) {
        var n :| n in Management(previous) && Contains(n, a);
        CoversUnion(Elements(next.management4), Elements(next.management6), a);
        if n in previous.management4 {
          assert CoversBlock(Elements(next.management4), n);
        } else {
          assert CoversBlock(Elements(next.management6), n);
        }
      }
    }
  }

  /** Refuses exactly the configurations that would lose an address or an uplink. */
  method ManagementTransition(previous: Option<Document>, next: Configuration) returns (ok: bool)
    requires AdmitConfiguration(next) && (previous.Some? ==> AdmitConfiguration(previous.value.configuration))
    ensures ok <==> (previous.Some? ==> Preserves(next, previous.value.configuration))
  {
    if previous.None? {
      return true;
    }
    var before := previous.value.configuration;
    FamiliesTogether(before, next);
    if !(forall name :: name in before.interfaces ==> name in next.interfaces) {
      return false;
    }
    ok := FamilyPreserved(before.management4, next.management4);
    if ok {
      ok := FamilyPreserved(before.management6, next.management6);
    }
  }

  // ---------- Succession of accepted documents ----------

  ghost predicate Continues(previous: Option<Document>, value: Document) {
    && Recordable(value)
    && (previous.Some? ==>
          && Preserves(value.configuration, previous.value.configuration)
          && (previous.value.prefixes.Some? ==>
                value.prefixes.Some? && PrefixLkg.AdmitSuccessor(previous.value.prefixes, value.prefixes.value)))
  }

  function PrefixesOf(d: Option<Document>): Option<PrefixLkg.Candidate> {
    if d.None? then None else d.value.prefixes
  }

  /** What `configuration` and `source` are to be recorded as after `previous`. */
  function Proposed(configuration: Configuration, source: Option<PrefixLkg.Candidate>, previous: Option<Document>)
    : Document
  {
    Document(configuration, if source.None? then PrefixesOf(previous) else source)
  }

  ghost predicate Keeps(history: seq<Document>, c: Configuration) {
    forall i :: 0 <= i < |history| ==> Preserves(c, history[i].configuration)
  }

  /** `x` loses nothing that the accepted `history` and its `publications` established. */
  ghost predicate Upholds(history: seq<Document>, publications: seq<PrefixLkg.Candidate>, x: Option<Document>) {
    && (x.None? ==> history == [])
    && (x.Some? ==> Recordable(x.value) && Keeps(history, x.value.configuration))
    && PrefixLkg.Beyond(publications, PrefixesOf(x))
  }

  function Published(publications: seq<PrefixLkg.Candidate>, d: Document): seq<PrefixLkg.Candidate> {
    if d.prefixes.None? then publications else publications + [d.prefixes.value]
  }

  lemma UpholdsExtends(history: seq<Document>, publications: seq<PrefixLkg.Candidate>, previous: Option<Document>,
                       value: Document)
    requires Upholds(history, publications, previous) && Continues(previous, value)
    ensures Upholds(history, publications, Some(value))
    ensures Upholds(history + [value], Published(publications, value), Some(value))
  {
    forall i | 0 <= i < |history| ensures Preserves(value.configuration, history[i].configuration) {
      PreservesTransitive(history[i].configuration, previous.value.configuration, value.configuration);
    }
    if value.prefixes.Some? {
      PrefixLkg.BeyondExtends(publications, PrefixesOf(previous), value.prefixes.value);
    }
  }

  lemma RerunContinues(previous: Option<Document>, value: Document)
    requires Continues(previous, value)
    ensures Continues(Some(value), value)
  {
  }

  // ---------- Remediation decisions ----------

  datatype Decision = Decision(timeout: int, expires: nat)

  type Decisions = map<Address, Decision>

  /** Time passed: elements count down or are gone, and nothing else happened. */
  predicate Aged(before: Decisions, after: Decisions) {
    forall a :: a in after ==>
      a in before && after[a].timeout == before[a].timeout && after[a].expires <= before[a].expires
  }

  function Only(decisions: Decisions, family: Family): set<Address> {
    set a | a in decisions && a.family == family
  }

  predicate Admissible(d: Document, a: Address, x: Decision) {
    && 0 < x.timeout <= MAX_TTL && 0 <= x.expires <= x.timeout
    && Ordinary(a) && !Covers(ProtectedBy(d), a)
  }

  predicate FamilyAdmissible(d: Document, decisions: Decisions, family: Family) {
    && |Only(decisions, family)| <= MAX_DECISIONS
    && forall a :: a in decisions && a.family == family ==> Admissible(d, a, decisions[a])
  }

  predicate AllAdmissible(d: Document, decisions: Decisions) {
    FamilyAdmissible(d, decisions, V4) && FamilyAdmissible(d, decisions, V6)
  }

  lemma AgedAdmissible(d: Document, before: Decisions, after: Decisions, family: Family)
    requires FamilyAdmissible(d, before, family) && Aged(before, after)
    ensures FamilyAdmissible(d, after, family)
  {
    SubsetSize(Only(after, family), Only(before, family));
  }

  lemma NoDecisions(d: Document, none: Decisions)
    requires none == map[]
    ensures AllAdmissible(d, none)
  {
    assert Only(none, V4) == {} && Only(none, V6) == {};
  }

  lemma Unprotected(d: Document, decisions: Decisions)
    requires AllAdmissible(d, decisions)
    ensures forall a :: a in decisions ==> !Covers(ProtectedBy(d), a)
  {
    forall a | a in decisions ensures !Covers(ProtectedBy(d), a) {
      assert Admissible(d, a, decisions[a]);
    }
  }

  lemma DecisionAdmitted(d: Document, decisions: Decisions, peer: Address)
    requires AllAdmissible(d, decisions)
    ensures peer in decisions ==> decisions[peer].expires <= decisions[peer].timeout
  {
    assert peer in decisions ==> Admissible(d, peer, decisions[peer]);
  }

  lemma AgedTransitive(a: Decisions, b: Decisions, c: Decisions)
    requires Aged(a, b) && Aged(b, c)
    ensures Aged(a, c)
  {
  }

  /** The decisions after one element is destroyed and, unless removing, added anew. */
  function Decided(decisions: Decisions, peer: Address, ttl: nat, remove: bool): Decisions {
    if remove then decisions - {peer} else decisions[peer := Decision(ttl, ttl)]
  }

  datatype Element = Element(peer: Address, decision: Decision)

  lemma DecidedAged(before: Decisions, after: Decisions, peer: Address, ttl: nat, remove: bool)
    requires Aged(before, after)
    ensures Aged(Decided(before, peer, ttl, remove), Decided(after, peer, ttl, remove))
  {
  }

  /** Destroying needs nothing; adding needs room in the set. */
  predicate Fits(decisions: Decisions, peer: Address, remove: bool) {
    remove || |Only(decisions - {peer}, peer.family)| < MAX_DECISIONS
  }

  lemma AgedFits(before: Decisions, after: Decisions, peer: Address, remove: bool)
    requires Aged(before, after) && Fits(before, peer, remove)
    ensures Fits(after, peer, remove)
  {
    SubsetSize(Only(after - {peer}, peer.family), Only(before - {peer}, peer.family));
  }

  lemma DecidedSize(decisions: Decisions, family: Family, peer: Address, ttl: nat, remove: bool)
    requires |Only(decisions, family)| <= MAX_DECISIONS && Fits(decisions, peer, remove)
    ensures |Only(Decided(decisions, peer, ttl, remove), family)| <= MAX_DECISIONS
  {
    var after := Decided(decisions, peer, ttl, remove);
    if remove || family != peer.family {
      SubsetSize(Only(after, family), Only(decisions, family));
    } else {
      assert Only(after, family) == Only(decisions - {peer}, family) + {peer};
    }
  }

  lemma DecidedAdmissible(d: Document, decisions: Decisions, peer: Address, ttl: nat, remove: bool)
    requires AllAdmissible(d, decisions) && Fits(decisions, peer, remove)
    requires Remediable(d, peer, ttl)
    ensures AllAdmissible(d, Decided(decisions, peer, ttl, remove))
  {
    hide Covers, Ordinary, ProtectedBy, Only, Fits;
    DecidedSize(decisions, V4, peer, ttl, remove);
    DecidedSize(decisions, V6, peer, ttl, remove);
  }

  predicate Remediable(d: Document, peer: Address, ttl: int) {
    Ordinary(peer) && 1 <= ttl <= MAX_TTL && !Covers(ProtectedBy(d), peer)
  }

  lemma AgedAllAdmissible(d: Document, before: Decisions, after: Decisions)
    requires AllAdmissible(d, before) && Aged(before, after)
    ensures AllAdmissible(d, after)
  {
    AgedAdmissible(d, before, after, V4);
    AgedAdmissible(d, before, after, V6);
  }

  /** What a read-back shows, whether or not an unacknowledged element batch took effect. */
  lemma EffectSeen(before: Decisions, admitted: Decisions, after: Decisions, seen: Decisions, peer: Address, ttl: nat,
                   remove: bool)
    requires Aged(before, admitted) && Aged(after, seen)
    requires after == admitted || after == Decided(admitted, peer, ttl, remove)
    ensures Aged(before, seen) || Aged(Decided(before, peer, ttl, remove), seen)
    ensures remove && peer !in seen ==> Aged(Decided(before, peer, ttl, remove), seen)
    ensures !remove && peer in seen && seen[peer].timeout == ttl && seen[peer].expires <= ttl ==>
      Aged(Decided(before, peer, ttl, remove), seen)
  {
    if after == admitted {
      AgedTransitive(before, admitted, seen);
    } else {
      DecidedAged(before, admitted, peer, ttl, remove);
      AgedTransitive(Decided(before, peer, ttl, remove), after, seen);
    }
  }

  function Peers(entries: seq<Element>): set<Address> {
    set i | 0 <= i < |entries| :: entries[i].peer
  }

  /** The listing of one set holds exactly its elements, each once. */
  ghost predicate Lists(entries: seq<Element>, decisions: Decisions, peers: set<Address>) {
    && |entries| == |peers| && Peers(entries) == peers
    && (forall i :: 0 <= i < |entries| ==>
          entries[i].peer in decisions && entries[i].decision == decisions[entries[i].peer])
    && (forall i, j :: 0 <= i < j < |entries| ==> entries[i].peer != entries[j].peer)
  }

  lemma ListsExtends(entries: seq<Element>, decisions: Decisions, peers: set<Address>, a: Address)
    requires Lists(entries, decisions, peers) && a in decisions && a !in peers
    ensures Lists(entries + [Element(a, decisions[a])], decisions, peers + {a})
  {
    var all := entries + [Element(a, decisions[a])];
    forall p | p in peers + {a} ensures p in Peers(all) {
      if p == a {
        assert all[|entries|].peer == a;
      } else {
        var i :| 0 <= i < |entries| && entries[i].peer == p;
        assert all[i].peer == p;
      }
    }
    forall i | 0 <= i < |entries| ensures entries[i].peer in peers {
      assert entries[i].peer in Peers(entries);
    }
  }

  method Enumerate(decisions: Decisions, peers: set<Address>) returns (entries: seq<Element>)
    requires peers <= decisions.Keys
    ensures Lists(entries, decisions, peers)
    decreases peers
  {
    if peers == {} {
      return [];
    }
    var a :| a in peers;
    var rest := Enumerate(decisions, peers - {a});
    ListsExtends(rest, decisions, peers - {a}, a);
    assert peers - {a} + {a} == peers;
    entries := rest + [Element(a, decisions[a])];
  }

  predicate EntryAdmissible(d: Document, e: Element, family: Family) {
    Admissible(d, e.peer, e.decision) && e.peer.family == family
  }

  lemma ListedAdmissible(d: Document, entries: seq<Element>, decisions: Decisions, family: Family)
    requires Lists(entries, decisions, Only(decisions, family))
    ensures FamilyAdmissible(d, decisions, family) <==>
            |entries| <= MAX_DECISIONS && forall i :: 0 <= i < |entries| ==> EntryAdmissible(d, entries[i], family)
  {
    forall i | 0 <= i < |entries| ensures entries[i].peer in Only(decisions, family) {
      assert entries[i].peer in Peers(entries);
    }
    forall a | a in decisions && a.family == family
      ensures exists i :: 0 <= i < |entries| && entries[i].peer == a
    {
      assert a in Only(decisions, family);
    }
  }

  method AdmitEntry(d: Document, e: Element, family: Family) returns (ok: bool)
    requires Recordable(d)
    ensures ok <==> EntryAdmissible(d, e, family)
  {
    if !(0 < e.decision.timeout <= MAX_TTL && 0 <= e.decision.expires <= e.decision.timeout) {
      return false;
    }
    var actual := Remediation(d.configuration, SourceOf(d), e.peer, 1);
    ok := actual.Success? && actual.value == family;
  }

  method AdmitEntries(d: Document, entries: seq<Element>, family: Family) returns (ok: bool)
    requires Recordable(d)
    ensures ok <==>
      |entries| <= MAX_DECISIONS && forall i :: 0 <= i < |entries| ==> EntryAdmissible(d, entries[i], family)
  {
    hide EntryAdmissible;
    if |entries| > MAX_DECISIONS {
      return false;
    }
    for i := 0 to |entries|
      invariant forall k :: 0 <= k < i ==> EntryAdmissible(d, entries[k], family)
    {
      ok := AdmitEntry(d, entries[i], family);
      if !ok {
        return false;
      }
    }
    ok := true;
  }

  datatype Outcome = Done | Refused | Failed | Unconfirmed

  datatype Request =
    | ApplyRequest(configuration: Configuration, source: Option<PrefixLkg.Candidate>)
    | RestoreRequest
    | CheckRequest
    | RemediateRequest(peer: Address, ttl: int, remove: bool)
    | RebootRequest

  class Controller {
    /** The kernel: the table's listing (empty while there is no table) and its set elements. */
    var objects: seq<Object>
    var decisions: Decisions

    /** accepted.json as it is read now, and as a power loss would leave it. */
    var file: Option<Document>
    var durable: Option<Document>

    /** A document whose policy the table holds. */
    ghost var installed: Option<Document>

    /** The documents whose recording was confirmed, and their publications, oldest first. */
    ghost var history: seq<Document>
    ghost var publications: seq<PrefixLkg.Candidate>

    /** Native calls that failed. A call that took effect and lost its acknowledgement is not one. */
    ghost var faults: nat

    ghost predicate Valid()
      reads this
    {
      && Upholds(history, publications, file)
      && Upholds(history, publications, durable)
      && (objects == [] ==> decisions == map[])
      && (objects != [] ==> installed.Some? && InstalledValid(installed.value))
      && (objects != [] && file.Some? ==> Preserves(installed.value.configuration, file.value.configuration))
    }

    ghost predicate InstalledValid(d: Document)
      reads this
    {
      && Recordable(d) && objects == PolicyOf(d) && Keeps(history, d.configuration)
      && (forall a :: a in decisions ==> !Covers(ProtectedBy(d), a))
    }

    constructor ()
      ensures Valid() && history == [] && objects == [] && file.None?
    {
      objects, decisions, file, durable := [], map[], None, None;
      installed, history, publications, faults := None, [], [], 0;
    }

    // ---------- Native calls ----------

    method Elapse()
      modifies `decisions
      ensures Aged(old(decisions), decisions)
      ensures old(Valid()) ==> Valid()
    {
      var later: Decisions := *;
      decisions := if Aged(decisions, later) then later else map[];
    }

    method Snapshot() returns (r: Result<Option<seq<Row>>, ()>)
      modifies `faults
      ensures r.Success? ==> faults == old(faults) && (r.value.None? <==> objects == [])
      ensures r.Success? && r.value.Some? ==>
        (forall row :: row in r.value.value ==> Readable(row)) && Objects(r.value.value) == objects
      ensures r.Failure? ==> faults > old(faults)
    {
      var fails: bool := *;
      if fails {
        faults := faults + 1;
        return Failure(());
      }
      if objects == [] {
        return Success(None);
      }
      var handles: nat -> Option<nat> := *;
      ListingReadsBack(objects, handles);
      r := Success(Some(Listing(objects, handles)));
    }

    method Validate() returns (ok: bool)
      modifies `faults
      ensures ok ==> faults == old(faults)
      ensures !ok ==> faults > old(faults)
    {
      ok := *;
      if !ok {
        faults := faults + 1;
      }
    }

    /** A policy batch takes effect as a whole or not at all, and either may go unacknowledged. */
    method Commit(commands: seq<Command>) returns (acknowledged: bool)
      modifies `objects, `faults
      ensures faults >= old(faults)
      ensures objects == old(objects) || Execute(commands, old(objects)) == Some(objects)
      ensures acknowledged ==> Execute(commands, old(objects)) == Some(objects)
      ensures faults == old(faults) && Execute(commands, old(objects)).Some? ==>
        Execute(commands, old(objects)) == Some(objects)
    {
      var after := Execute(commands, objects);
      var lands: bool := *;
      acknowledged := false;
      if lands && after.Some? {
        objects := after.value;
        acknowledged := *;
      } else {
        faults := faults + if lands then 0 else 1;
      }
    }

    method ListDecisions(family: Family) returns (r: Result<seq<Element>, ()>)
      modifies `decisions, `faults
      ensures Aged(old(decisions), decisions)
      ensures r.Success? ==> faults == old(faults) && Lists(r.value, decisions, Only(decisions, family))
      ensures r.Failure? ==> faults > old(faults)
    {
      Elapse();
      var fails: bool := *;
      if fails {
        faults := faults + 1;
        return Failure(());
      }
      var entries := Enumerate(decisions, Only(decisions, family));
      r := Success(entries);
    }

    // ---------- Steps of the operations ----------

    method Same(observed: Option<seq<Row>>, d: Document) returns (same: bool)
      ensures same <==>
        && observed.Some? && (forall row :: row in observed.value ==> Readable(row))
        && Objects(observed.value) == PolicyOf(d)
    {
      if observed.None? {
        return false;
      }
      var normalized := NormalizeTable(observed.value);
      same := normalized.Success? && normalized.value == PolicyOf(d);
    }

    method AdmitFamily(d: Document, family: Family) returns (ok: bool)
      requires Valid() && Recordable(d)
      modifies `decisions, `faults
      ensures Valid() && Aged(old(decisions), decisions) && faults >= old(faults)
      ensures ok ==> FamilyAdmissible(d, decisions, family)
      ensures !ok ==> faults > old(faults) || !FamilyAdmissible(d, old(decisions), family)
    {
      var listed := ListDecisions(family);
      if listed.Failure? {
        return false;
      }
      if FamilyAdmissible(d, old(decisions), family) {
        AgedAdmissible(d, old(decisions), decisions, family);
      }
      ListedAdmissible(d, listed.value, decisions, family);
      ok := AdmitEntries(d, listed.value, family);
    }

    method AdmitDecisions(d: Document) returns (ok: bool)
      requires Valid() && Recordable(d)
      modifies `decisions, `faults
      ensures Valid() && Aged(old(decisions), decisions) && faults >= old(faults)
      ensures ok ==> AllAdmissible(d, decisions)
      ensures !ok ==> faults > old(faults) || !AllAdmissible(d, old(decisions))
    {
      ok := AdmitFamily(d, V4);
      if ok {
        ghost var between := decisions;
        ok := AdmitFamily(d, V6);
        if ok {
          AgedAdmissible(d, between, decisions, V4);
        } else if FamilyAdmissible(d, old(decisions), V6) {
          AgedAdmissible(d, old(decisions), between, V6);
        }
      }
    }

    /** _commit_policy: one transaction, then independent proof of what it left. */
    method CommitPolicy(value: Document) returns (ok: bool)
      requires Valid() && Recordable(value) && Keeps(history, value.configuration)
      requires file.Some? ==> Preserves(value.configuration, file.value.configuration)
      requires forall a :: a in decisions ==> !Covers(ProtectedBy(value), a)
      modifies `objects, `installed, `faults
      ensures Valid() && faults >= old(faults)
      ensures objects == old(objects) || objects == PolicyOf(value)
      ensures objects == old(objects) ==> installed == old(installed) || installed == Some(value)
      ensures ok ==> objects == PolicyOf(value) && installed == Some(value)
      ensures !ok ==> faults > old(faults)
    {
      hide Recordable, Keeps, PrefixLkg.Beyond, Covers, Upholds, Policy, Batch, Execute;
      PolicyPresent(value);
      var commands := BuildBatch(PolicyOf(value), objects == []);
      ok := Validate();
      if !ok {
        return;
      }
      if objects == [] {
        BatchInstalls(value.configuration, SourceOf(value), value.configuration, SourceOf(value));
      } else {
        BatchInstalls(value.configuration, SourceOf(value), installed.value.configuration, SourceOf(installed.value));
      }
      assert Execute(commands, objects) == Some(PolicyOf(value));
      var acknowledged := Commit(commands);
      if objects == PolicyOf(value) {
        installed := Some(value);
      }
      if !acknowledged {
        var reread := Snapshot();
        if reread.Failure? {
          return false;
        }
        ok := Same(reread.value, value);
        if !ok {
          return;
        }
      }
      var observed := Snapshot();
      if observed.Failure? {
        return false;
      }
      ok := Same(observed.value, value);
    }

    /** Atomic replacement of accepted.json; its durability may stay unconfirmed. */
    method Save(value: Document) returns (outcome: Outcome)
      requires Valid() && Continues(file, value)
      requires objects != [] && installed == Some(value)
      modifies `file, `durable, `history, `publications, `faults
      ensures Valid() && faults >= old(faults) && !outcome.Refused?
      ensures file == old(file) || file == Some(value)
      ensures outcome.Done? ==> file == durable == Some(value) && history == old(history) + [value]
      ensures outcome.Done? ==> publications == Published(old(publications), value)
      ensures !outcome.Done? ==> faults > old(faults)
      ensures !outcome.Done? ==> history == old(history) && publications == old(publications)
    {
      var renamed: bool := *;
      var confirmed: bool := *;
      if !renamed {
        faults := faults + 1;
        return Failed;
      }
      UpholdsExtends(history, publications, file, value);
      file := Some(value);
      if !confirmed {
        faults := faults + 1;
        return Outcome.Unconfirmed;
      }
      durable := file;
      history := history + [value];
      publications := Published(publications, value);
      outcome := Done;
    }

    // ---------- Operations ----------

    /** Everything but the remediation state that an apply is admitted on. */
    ghost predicate Entitled(configuration: Configuration, source: Option<PrefixLkg.Candidate>)
      reads this
    {
      && AdmitScope(configuration, source)
      && var value := Proposed(configuration, source, file);
      && Continues(file, value)
      && (objects == [] || objects == PolicyOf(value) || (file.Some? && objects == PolicyOf(file.value)))
    }

    /** The kernel enforces exactly the accepted document, and no decision oversteps it. */
    ghost predicate Holds()
      reads this
    {
      file.Some? && objects == PolicyOf(file.value) && AllAdmissible(file.value, decisions)
    }

    method Apply(configuration: Configuration, source: Option<PrefixLkg.Candidate>) returns (outcome: Outcome)
      requires Valid()
      modifies this
      ensures Valid() && faults >= old(faults)
      ensures Aged(old(decisions), decisions)
      ensures var value := Proposed(configuration, source, old(file));
        && (objects == old(objects) || objects == PolicyOf(value))
        && (file == old(file) || (file == Some(value) && objects == PolicyOf(value)))
        && (outcome.Done? ==>
              && objects == PolicyOf(value) && AllAdmissible(value, decisions)
              && file == durable == Some(value) && history == old(history) + [value]
              && publications == Published(old(publications), value))
        && (old(Entitled(configuration, source)) && old(AllAdmissible(value, decisions)) && faults == old(faults) ==>
              outcome.Done?)
      ensures !outcome.Done? ==> history == old(history) && publications == old(publications)
      ensures old(Entitled(configuration, source)) ==> Entitled(configuration, source)
      ensures !old(Entitled(configuration, source)) ==>
        !outcome.Done? && objects == old(objects) && file == old(file) && durable == old(durable)
    {
      hide PolicyOf, Recordable, Keeps, PrefixLkg.Beyond, AllAdmissible, Preserves, AdmitScope, Covers;
      var previous := file;
      var value := Proposed(configuration, source, previous);
      var entitled := AdmitTransition(configuration, source);
      if !entitled {
        return Refused;
      }
      UpholdsExtends(history, publications, previous, value);
      RerunContinues(previous, value);
      var observed := Snapshot();
      if observed.Failure? {
        return Failed;
      }
      if observed.value.Some? {
        var admitted := AdmitDecisions(value);
        if !admitted {
          return Refused;
        }
        var same := Same(observed.value, value);
        if same {
          Reinterpret(value);
          installed := Some(value);
          outcome := Save(value);
          return;
        }
        if previous.None? {
          return Refused;
        }
        same := Same(observed.value, previous.value);
        if !same {
          return Refused;
        }
      } else {
        NoDecisions(value, decisions);
      }
      outcome := Install(value);
    }

    /** Is the desired document admitted after the recorded one? Decided before the kernel is looked at. */
    method AdmitTransition(configuration: Configuration, source: Option<PrefixLkg.Candidate>) returns (ok: bool)
      requires Valid()
      ensures ok <==> AdmitScope(configuration, source) && Continues(file, Proposed(configuration, source, file))
    {
      hide PolicyOf, PrefixLkg.Beyond, Preserves, Covers, Keeps;
      if !AdmitScope(configuration, source) {
        return false;
      }
      ok := ManagementTransition(file, configuration);
      if ok && file.Some? && file.value.prefixes.Some? && source.Some? {
        ok := PrefixLkg.AdmitSuccessor(file.value.prefixes, source.value);
      }
    }

    /** The table already is `value`'s policy, and its decisions were just admitted against it. */
    lemma Reinterpret(value: Document)
      requires Valid() && Recordable(value) && Keeps(history, value.configuration)
      requires objects == PolicyOf(value) && AllAdmissible(value, decisions)
      ensures InstalledValid(value)
    {
      hide PolicyOf, Recordable, Keeps;
    }

    /** The rest of apply once the transition is admitted: install, check, record. */
    method Install(value: Document) returns (outcome: Outcome)
      requires Valid() && Continues(file, value) && Keeps(history, value.configuration)
      requires AllAdmissible(value, decisions)
      modifies this
      ensures Valid() && faults >= old(faults) && Aged(old(decisions), decisions)
      ensures objects == old(objects) || objects == PolicyOf(value)
      ensures file == old(file) || (file == Some(value) && objects == PolicyOf(value))
      ensures outcome.Done? ==>
        && objects == PolicyOf(value) && AllAdmissible(value, decisions)
        && file == durable == Some(value) && history == old(history) + [value]
        && publications == Published(old(publications), value)
      ensures !outcome.Done? ==> history == old(history) && publications == old(publications) && faults > old(faults)
    {
      hide PolicyOf, Recordable, Keeps, PrefixLkg.Beyond, Preserves, AdmitScope, Covers, AllAdmissible;
      Unprotected(value, decisions);
      PolicyPresent(value);
      var committed := CommitPolicy(value);
      if !committed {
        return Failed;
      }
      var admitted := AdmitDecisions(value);
      if !admitted {
        return Failed;
      }
      outcome := Save(value);
    }

    method Restore() returns (ok: bool)
      requires Valid()
      modifies `objects, `decisions, `installed, `faults
      ensures Valid() && faults >= old(faults) && Aged(old(decisions), decisions)
      ensures objects == old(objects) || (old(objects) == [] && file.Some? && objects == PolicyOf(file.value))
      ensures ok ==> Holds()
      ensures faults == old(faults) && file.Some? && old(objects) == [] ==> ok
      ensures faults == old(faults) && old(Holds()) ==> ok
    {
      hide PolicyOf, Recordable, Keeps, PrefixLkg.Beyond, AllAdmissible, CoversAll, Covers;
      if file.None? {
        return false;
      }
      var value := file.value;
      PolicyPresent(value);
      var observed := Snapshot();
      if observed.Failure? {
        return false;
      }
      if observed.value.None? {
        NoDecisions(value, decisions);
        Unprotected(value, decisions);
        PreservesItself(value.configuration);
        ok := CommitPolicy(value);
        if !ok {
          return;
        }
      }
      var reread := Snapshot();
      if reread.Failure? {
        return false;
      }
      ok := Same(reread.value, value);
      if ok {
        ok := AdmitDecisions(value);
      }
    }

    method Check() returns (ok: bool)
      requires Valid()
      modifies `decisions, `faults
      ensures Valid() && faults >= old(faults) && Aged(old(decisions), decisions)
      ensures ok ==> Holds()
      ensures faults == old(faults) && old(Holds()) ==> ok
    {
      hide PolicyOf, Recordable, Keeps, PrefixLkg.Beyond, AllAdmissible, CoversAll;
      if file.None? {
        return false;
      }
      PolicyPresent(file.value);
      var observed := Snapshot();
      if observed.Failure? {
        return false;
      }
      ok := Same(observed.value, file.value);
      if ok {
        ok := AdmitDecisions(file.value);
      }
    }

    /** An element batch: destroy, then add with its lifetime. The set refuses to outgrow its size. */
    method CommitElement(peer: Address, ttl: nat, remove: bool) returns (acknowledged: bool)
      modifies `decisions, `faults
      ensures faults >= old(faults)
      ensures decisions == old(decisions) || decisions == Decided(old(decisions), peer, ttl, remove)
      ensures faults == old(faults) && Fits(old(decisions), peer, remove) ==>
        decisions == Decided(old(decisions), peer, ttl, remove)
    {
      var lands: bool := *;
      acknowledged := false;
      if !lands {
        faults := faults + 1;
      } else if Fits(decisions, peer, remove) {
        decisions := Decided(decisions, peer, ttl, remove);
        acknowledged := *;
      }
    }

    /** May the element be touched at all? On success the table enforces the accepted document. */
    method AdmitRemediation(peer: Address, ttl: int) returns (ok: bool)
      requires Valid()
      modifies `decisions, `installed, `faults
      ensures Valid() && faults >= old(faults) && Aged(old(decisions), decisions)
      ensures ok ==> Holds() && installed == file
      ensures ok ==> Remediable(file.value, peer, ttl)
      ensures faults == old(faults) && old(Holds()) && Remediable(file.value, peer, ttl) ==> ok
    {
      hide PolicyOf, Keeps, PrefixLkg.Beyond, CoversAll, Covers, AdmitScope, Ordinary, AllAdmissible;
      if file.None? {
        return false;
      }
      PolicyPresent(file.value);
      var observed := Snapshot();
      if observed.Failure? {
        return false;
      }
      ok := Same(observed.value, file.value);
      if !ok {
        return;
      }
      var family := Remediation(file.value.configuration, SourceOf(file.value), peer, ttl);
      if family.Failure? {
        return false;
      }
      ok := AdmitDecisions(file.value);
      if ok {
        Reinterpret(file.value);
        PreservesItself(file.value.configuration);
        installed := file;
      }
    }

    /** `seen` is what the final read-back listed. */
    method Remediate(peer: Address, ttl: int, remove: bool) returns (ok: bool, ghost seen: Decisions)
      requires Valid()
      modifies `decisions, `installed, `faults
      ensures Valid() && faults >= old(faults)
      ensures Aged(old(decisions), decisions) || (1 <= ttl && Aged(Decided(old(decisions), peer, ttl, remove), decisions))
      ensures ok ==>
        && Holds() && Remediable(file.value, peer, ttl)
        && Aged(Decided(old(decisions), peer, ttl, remove), seen) && Aged(seen, decisions)
        && (if remove then peer !in seen else peer in seen && seen[peer].timeout == ttl)
      ensures && faults == old(faults) && old(Holds()) && Remediable(file.value, peer, ttl)
              && Fits(old(decisions), peer, remove) && !ok ==>
        !remove && peer !in seen
    {
      hide PolicyOf, Recordable, Keeps, PrefixLkg.Beyond, CoversAll, Covers, AdmitScope, Ordinary, AllAdmissible, Fits;
      seen := decisions;
      ok := AdmitRemediation(peer, ttl);
      if !ok {
        return;
      }
      PolicyPresent(file.value);
      ghost var admitted := decisions;
      DecisionAdmitted(file.value, admitted, peer);
      ok := Validate();
      if !ok {
        return;
      }
      var acknowledged := CommitElement(peer, ttl, remove);
      ghost var after := decisions;
      ok := ReadBack(peer, ttl, remove);
      seen := decisions;
      EffectSeen(old(decisions), admitted, after, seen, peer, ttl, remove);
      ghost var fit := Fits(old(decisions), peer, remove);
      if fit {
        AgedFits(old(decisions), admitted, peer, remove);
        DecidedAdmissible(file.value, admitted, peer, ttl, remove);
        if after == Decided(admitted, peer, ttl, remove) {
          AgedAllAdmissible(file.value, after, seen);
        }
      }
      if ok {
        ok := AdmitDecisions(file.value);
        AgedTransitive(Decided(old(decisions), peer, ttl, remove), seen, decisions);
      }
    }

    /** Is the requested element as desired, whatever the commit said? */
    method ReadBack(peer: Address, ttl: int, remove: bool) returns (ok: bool)
      modifies `decisions, `faults
      ensures faults >= old(faults) && Aged(old(decisions), decisions)
      ensures ok ==> if remove then peer !in decisions else peer in decisions && decisions[peer].timeout == ttl
      ensures faults == old(faults) ==>
        (ok <==> if remove then peer !in decisions else peer in decisions && decisions[peer].timeout == ttl)
    {
      var listed := ListDecisions(peer.family);
      if listed.Failure? {
        return false;
      }
      var found: seq<Element> := [];
      var entries := listed.value;
      for i := 0 to |entries|
        invariant found == [] ==> forall k :: 0 <= k < i ==> entries[k].peer != peer
        invariant |found| <= 1
        invariant found != [] ==> exists k :: 0 <= k < i && entries[k].peer == peer && found == [entries[k]]
      {
        if entries[i].peer == peer {
          found := found + [entries[i]];
        }
      }
      assert peer in Peers(entries) <==> peer in decisions;
      ok := if remove then found == [] else |found| == 1 && found[0].decision.timeout == ttl;
    }

    // ---------- Whole runs ----------

    /** Any sequence of operations and restarts, each free to fail anywhere. */
    method Operate(requests: seq<Request>)
      requires Valid()
      modifies this
      ensures Valid()
      ensures old(history) <= history && old(publications) <= publications
    {
      hide Upholds, InstalledValid, Aged, PolicyOf;
      for i := 0 to |requests|
        invariant Valid() && old(history) <= history && old(publications) <= publications
      {
        Elapse();
        match requests[i] {
          case ApplyRequest(configuration, source) => var outcome := Apply(configuration, source);
          case RestoreRequest => var ok := Restore();
          case CheckRequest => var ok := Check();
          case RemediateRequest(peer, ttl, remove) => var ok, seen := Remediate(peer, ttl, remove);
          case RebootRequest => Reboot();
        }
      }
    }

    /** Recorded for good once, or recorded now, its durability confirmed or not. */
    ghost predicate Recorded(d: Document)
      reads this
    {
      d in history || file == Some(d)
    }

    lemma RecordedPreserved(d: Document)
      requires Valid() && objects != [] && Recorded(d)
      ensures Preserves(installed.value.configuration, d.configuration)
    {
      hide Preserves;
      if d in history {
        var i :| 0 <= i < |history| && history[i] == d;
      }
    }

    /** Whatever has happened since, an address recorded for management once still reaches port 22. */
    lemma NoManagementLockout(recorded: Document, p: Packet)
      requires Valid() && objects != [] && Recorded(recorded)
      requires Covers(Management(recorded.configuration), p.source) && p.payload.Tcp? && p.payload.target == 22
      requires !p.state.Invalid? && (p.interface == "lo" || !FromLoopback(p))
      ensures Accepts(objects, Ingress, p, decisions.Keys)
    {
      var d := installed.value;
      RecordedPreserved(recorded);
      PolicyMeaning(d.configuration, SourceOf(d), p, decisions.Keys);
    }

    /** Nor does a DHCP uplink stop admitting the replies it was accepted for. */
    lemma NoUplinkLockout(recorded: Document, p: Packet)
      requires Valid() && objects != [] && Recorded(recorded)
      requires DhcpReply(recorded.configuration.interfaces, p)
      requires !p.state.Invalid? && !FromLoopback(p)
      ensures Accepts(objects, Ingress, p, decisions.Keys)
    {
      var d := installed.value;
      RecordedPreserved(recorded);
      PolicyMeaning(d.configuration, SourceOf(d), p, decisions.Keys);
    }

    /** No remediation in force touches a peer that the enforced policy protects. */
    lemma ProtectedNeverRemediated(p: Packet)
      requires Valid() && objects != [] && Covers(ProtectedBy(installed.value), p.source)
      ensures objects == PolicyOf(installed.value) && p.source !in decisions
      ensures Accepts(objects, Ingress, p, decisions.Keys) <==> Accepts(objects, Ingress, p, {})
    {
      var d := installed.value;
      RemediationSparesProtected(d.configuration, SourceOf(d), p, decisions.Keys);
    }

    /** A restart empties the kernel; an unconfirmed record may turn out lost. */
    method Reboot()
      requires Valid()
      modifies `objects, `decisions, `installed, `file, `durable
      ensures Valid() && objects == [] && decisions == map[]
      ensures file == old(file) || file == old(durable)
    {
      objects, decisions, installed := [], map[], None;
      var kept: bool := *;
      if !kept {
        file := durable;
      }
      durable := file;
    }
  }
}
