/**
  Deciding a projected observation: closed facts, their one order, and what makes an event
  a candidate or ambiguous (scripts/selinux_isolation_contract.py).
 */
module AvcDecision {
  import opened Common
  import opened AuditRecords

  const MAX_AUDIT_OBSERVATION_BYTES := 65_536
  const MAX_AVC_DIAGNOSTIC_BYTES := 12_288
  const MAX_AUDIT_RECORDS := 48
  const MAX_AUDIT_EVENTS := 8
  const MAX_EVENT_RECORDS := 12
  const MAX_EVENT_COMPONENT_RECORDS := 4

  // ---------- Rejection facts and their one order ----------

  datatype Fact =
    | NoAvcRecordsObserved | DenialMismatch | PermissionMismatch | TargetClassMismatch | TargetNameMismatch
    | SourceContextMismatch | TargetContextMismatch | PermissiveMismatch | AvcPidInvalidOrMissing | AvcDuplicate
    | ProctitleAbsent | ProctitleMismatch | ProctitleDuplicate | SyscallAbsent | SyscallMismatch | SyscallDuplicate
    | EventIdParseMismatch | RecordRepresentationMalformed | CrossEventSeparation | MultipleCandidateEvents
    | ObservationMalformed | ObservationOversized | AusearchNoResult | CaptureExecutionError

  const AVC_FACTS: seq<Fact> :=
    [NoAvcRecordsObserved, DenialMismatch, PermissionMismatch, TargetClassMismatch, TargetNameMismatch,
     SourceContextMismatch, TargetContextMismatch, PermissiveMismatch]

  const EVENT_FACTS: seq<Fact> :=
    [AvcPidInvalidOrMissing, AvcDuplicate, ProctitleAbsent, ProctitleMismatch, ProctitleDuplicate, SyscallAbsent,
     SyscallMismatch, SyscallDuplicate]

  const OBSERVATION_FACTS: seq<Fact> :=
    [EventIdParseMismatch, RecordRepresentationMalformed, CrossEventSeparation, MultipleCandidateEvents,
     ObservationMalformed, ObservationOversized, AusearchNoResult, CaptureExecutionError]

  const FACTS: seq<Fact> := AVC_FACTS + EVENT_FACTS + OBSERVATION_FACTS

  function Pick(order: seq<Fact>, facts: set<Fact>): (r: seq<Fact>)
    ensures forall f :: f in r <==> f in order && f in facts
  {
    if order == [] then []
    else (if order[0] in facts then [order[0]] else []) + Pick(order[1..], facts)
  }

  function Ordered(facts: set<Fact>): seq<Fact> {
    Pick(FACTS, facts)
  }

  function FactsIn(list: seq<Fact>): (facts: set<Fact>)
    ensures forall f :: f in facts <==> f in list
  {
    set f | f in list
  }

  /** _validate_rejection_list: no repeats, and in the one order. */
  predicate Canonical(list: seq<Fact>) {
    list == Ordered(FactsIn(list))
  }

  lemma AvcFactOrdered(f: Fact)
    requires f.NoAvcRecordsObserved? || f.DenialMismatch? || f.PermissionMismatch? || f.TargetClassMismatch?
          || f.TargetNameMismatch? || f.SourceContextMismatch? || f.TargetContextMismatch? || f.PermissiveMismatch?
    ensures f in AVC_FACTS
  {
    var a := AVC_FACTS;
    assert f == a[0] || f == a[1] || f == a[2] || f == a[3] || f == a[4] || f == a[5] || f == a[6] || f == a[7];
  }

  lemma EventFactOrdered(f: Fact)
    requires f.AvcPidInvalidOrMissing? || f.AvcDuplicate? || f.ProctitleAbsent? || f.ProctitleMismatch?
          || f.ProctitleDuplicate? || f.SyscallAbsent? || f.SyscallMismatch? || f.SyscallDuplicate?
    ensures f in EVENT_FACTS
  {
    var a := EVENT_FACTS;
    assert f == a[0] || f == a[1] || f == a[2] || f == a[3] || f == a[4] || f == a[5] || f == a[6] || f == a[7];
  }

  lemma ObservationFactOrdered(f: Fact)
    requires f.EventIdParseMismatch? || f.RecordRepresentationMalformed? || f.CrossEventSeparation?
          || f.MultipleCandidateEvents? || f.ObservationMalformed? || f.ObservationOversized?
          || f.AusearchNoResult? || f.CaptureExecutionError?
    ensures f in OBSERVATION_FACTS
  {
    var a := OBSERVATION_FACTS;
    assert f == a[0] || f == a[1] || f == a[2] || f == a[3] || f == a[4] || f == a[5] || f == a[6] || f == a[7];
  }

  lemma EveryFactOrdered(f: Fact)
    ensures f in FACTS
  {
    var head := AVC_FACTS + EVENT_FACTS;
    if f.EventIdParseMismatch? || f.RecordRepresentationMalformed? || f.CrossEventSeparation?
       || f.MultipleCandidateEvents? || f.ObservationMalformed? || f.ObservationOversized?
       || f.AusearchNoResult? || f.CaptureExecutionError? {
      ObservationFactOrdered(f);
      InConcat(head, OBSERVATION_FACTS, f);
    } else if f.AvcPidInvalidOrMissing? || f.AvcDuplicate? || f.ProctitleAbsent? || f.ProctitleMismatch?
              || f.ProctitleDuplicate? || f.SyscallAbsent? || f.SyscallMismatch? || f.SyscallDuplicate? {
      EventFactOrdered(f);
      InConcat(AVC_FACTS, EVENT_FACTS, f);
      InConcat(head, OBSERVATION_FACTS, f);
    } else {
      AvcFactOrdered(f);
      InConcat(AVC_FACTS, EVENT_FACTS, f);
      InConcat(head, OBSERVATION_FACTS, f);
    }
  }

  lemma InConcat(a: seq<Fact>, b: seq<Fact>, f: Fact)
    ensures f in a + b <==> f in a || f in b
  {
  }

  lemma OrderedKeepsFacts(facts: set<Fact>)
    ensures FactsIn(Ordered(facts)) == facts && Canonical(Ordered(facts))
  {
    hide Pick;
    forall f | f in facts ensures f in FACTS {
      EveryFactOrdered(f);
    }
    assert FactsIn(Ordered(facts)) == facts;
  }

  // ---------- Events as they are projected ----------

  datatype AvcFacts = AvcFacts(denial: bool, permission: bool, targetClass: bool, targetName: bool,
                               sourceContext: bool, targetContext: bool, permissive: bool, pid: PidFacts)

  datatype SyscallFacts = SyscallFacts(pid: PidFacts, command: bool)

  datatype Event = Event(identity: Identity, recordCount: nat, avcs: seq<AvcFacts>, proctitles: seq<bool>,
                         syscalls: seq<SyscallFacts>, candidate: bool, rejections: seq<Fact>)

  predicate ContextsEnforced(a: AvcFacts) {
    a.sourceContext && a.targetContext && a.permissive && a.pid.status.ValidPid? && a.pid.pid.Some?
  }

  /** _legacy_exact_avc for schema 1, _causal_avc since. */
  predicate MatchesAvc(a: AvcFacts, schema: int) {
    ContextsEnforced(a) && if schema == 1 then a.permission && a.targetClass && a.targetName else a.denial
  }

  function CandidatePids(avcs: seq<AvcFacts>, schema: int): seq<nat> {
    if avcs == [] then []
    else
      var last := avcs[|avcs| - 1];
      CandidatePids(avcs[..|avcs| - 1], schema) + if MatchesAvc(last, schema) then [last.pid.pid.value] else []
  }

  function ValidPids(avcs: seq<AvcFacts>): seq<nat> {
    if avcs == [] then []
    else
      var last := avcs[|avcs| - 1].pid;
      ValidPids(avcs[..|avcs| - 1]) + if last.status.ValidPid? && last.pid.Some? then [last.pid.value] else []
  }

  function Titles(proctitles: seq<bool>): nat {
    if proctitles == [] then 0
    else Titles(proctitles[..|proctitles| - 1]) + if proctitles[|proctitles| - 1] then 1 else 0
  }

  predicate IsSyscall(s: SyscallFacts, pid: nat) {
    s.pid.status.ValidPid? && s.pid.pid == Some(pid) && s.command
  }

  function Syscalls(syscalls: seq<SyscallFacts>, pid: nat): nat {
    if syscalls == [] then 0
    else Syscalls(syscalls[..|syscalls| - 1], pid) + if IsSyscall(syscalls[|syscalls| - 1], pid) then 1 else 0
  }

  /** The one pid that system calls are matched against, if there is one. */
  function SyscallPid(e: Event, schema: int): Option<nat> {
    var candidates := CandidatePids(e.avcs, schema);
    var pids := if schema == 1 || |candidates| == 1 then candidates else ValidPids(e.avcs);
    if |pids| == 1 then Some(pids[0]) else None
  }

  function MatchingSyscalls(e: Event, schema: int): nat {
    var pid := SyscallPid(e, schema);
    if pid.Some? then Syscalls(e.syscalls, pid.value) else 0
  }

  predicate IsCandidate(e: Event, schema: int) {
    |CandidatePids(e.avcs, schema)| == 1 && Titles(e.proctitles) == 1 && MatchingSyscalls(e, schema) == 1
  }

  // ---------- Facts about one event ----------

  function If(condition: bool, f: Fact): set<Fact> {
    if condition then {f} else {}
  }

  function AvcMismatches(a: AvcFacts, schema: int): set<Fact> {
    (if schema == 1 then If(!a.permission, PermissionMismatch) + If(!a.targetClass, TargetClassMismatch)
                         + If(!a.targetName, TargetNameMismatch)
     else If(!a.denial, DenialMismatch))
    + If(!a.sourceContext, SourceContextMismatch) + If(!a.targetContext, TargetContextMismatch)
    + If(!a.permissive, PermissiveMismatch) + If(!a.pid.status.ValidPid?, AvcPidInvalidOrMissing)
  }

  function AllMismatches(avcs: seq<AvcFacts>, schema: int): set<Fact> {
    if avcs == [] then {}
    else AllMismatches(avcs[..|avcs| - 1], schema) + AvcMismatches(avcs[|avcs| - 1], schema)
  }

  function TitleFacts(proctitles: seq<bool>): set<Fact> {
    if proctitles == [] then {ProctitleAbsent}
    else If(Titles(proctitles) == 0, ProctitleMismatch) + If(Titles(proctitles) > 1, ProctitleDuplicate)
  }

  function SyscallFactsOf(e: Event, schema: int): set<Fact> {
    if e.syscalls == [] then {SyscallAbsent}
    else If((schema == 1 || SyscallPid(e, schema).Some?) && MatchingSyscalls(e, schema) == 0, SyscallMismatch)
         + If(MatchingSyscalls(e, schema) > 1, SyscallDuplicate)
  }

  function EventFacts(e: Event, schema: int): set<Fact> {
    AllMismatches(e.avcs, schema) + If(|CandidatePids(e.avcs, schema)| > 1, AvcDuplicate)
    + TitleFacts(e.proctitles) + SyscallFactsOf(e, schema)
  }

  datatype Decision = Decision(candidate: bool, facts: set<Fact>, pids: seq<nat>)

  method CountTitles(proctitles: seq<bool>) returns (n: nat)
    ensures n == Titles(proctitles)
  {
    n := 0;
    for i := 0 to |proctitles|
      invariant n == Titles(proctitles[..i])
    {
      assert proctitles[..i + 1][..i] == proctitles[..i];
      n := n + if proctitles[i] then 1 else 0;
    }
    assert proctitles[..|proctitles|] == proctitles;
  }

  method CountSyscalls(syscalls: seq<SyscallFacts>, pid: nat) returns (n: nat)
    ensures n == Syscalls(syscalls, pid)
  {
    n := 0;
    for i := 0 to |syscalls|
      invariant n == Syscalls(syscalls[..i], pid)
    {
      assert syscalls[..i + 1][..i] == syscalls[..i];
      n := n + if IsSyscall(syscalls[i], pid) then 1 else 0;
    }
    assert syscalls[..|syscalls|] == syscalls;
  }

  /** One pass over the denial records: mismatches, candidates and all valid pids. */
  method ScanAvcs(avcs: seq<AvcFacts>, schema: int) returns (facts: set<Fact>, candidates: seq<nat>, valid: seq<nat>)
    ensures facts == AllMismatches(avcs, schema)
    ensures candidates == CandidatePids(avcs, schema) && valid == ValidPids(avcs)
  {
    facts, candidates, valid := {}, [], [];
    for i := 0 to |avcs|
      invariant facts == AllMismatches(avcs[..i], schema)
      invariant candidates == CandidatePids(avcs[..i], schema) && valid == ValidPids(avcs[..i])
    {
      hide AvcMismatches;
      assert avcs[..i + 1][..i] == avcs[..i];
      facts := facts + AvcMismatches(avcs[i], schema);
      if MatchesAvc(avcs[i], schema) {
        candidates := candidates + [avcs[i].pid.pid.value];
      }
      if avcs[i].pid.status.ValidPid? && avcs[i].pid.pid.Some? {
        valid := valid + [avcs[i].pid.pid.value];
      }
    }
    assert avcs[..|avcs|] == avcs;
  }

  method DecideTitles(proctitles: seq<bool>) returns (titles: nat, facts: set<Fact>)
    ensures titles == Titles(proctitles) && facts == TitleFacts(proctitles)
  {
    titles := CountTitles(proctitles);
    facts := {};
    if proctitles == [] {
      facts := {ProctitleAbsent};
    } else if titles == 0 {
      facts := {ProctitleMismatch};
    } else if titles > 1 {
      facts := {ProctitleDuplicate};
    }
  }

  method DecideSyscalls(e: Event, schema: int, candidates: seq<nat>, valid: seq<nat>)
    returns (syscalls: nat, facts: set<Fact>)
    requires candidates == CandidatePids(e.avcs, schema) && valid == ValidPids(e.avcs)
    ensures syscalls == MatchingSyscalls(e, schema) && facts == SyscallFactsOf(e, schema)
  {
    hide CandidatePids, ValidPids, Syscalls;
    var pids := if schema == 1 || |candidates| == 1 then candidates else valid;
    syscalls, facts := 0, {};
    if |pids| == 1 {
      syscalls := CountSyscalls(e.syscalls, pids[0]);
    }
    if e.syscalls == [] {
      facts := {SyscallAbsent};
    } else if (schema == 1 || |pids| == 1) && syscalls == 0 {
      facts := {SyscallMismatch};
    } else if syscalls > 1 {
      facts := {SyscallDuplicate};
    }
  }

  /** _event_decision. */
  method DecideEvent(e: Event, schema: int) returns (d: Decision)
    ensures d == Decision(IsCandidate(e, schema), EventFacts(e, schema), CandidatePids(e.avcs, schema))
  {
    hide CandidatePids, ValidPids, AllMismatches, Titles, MatchingSyscalls, TitleFacts, SyscallFactsOf;
    var facts, candidates, valid := ScanAvcs(e.avcs, schema);
    if |candidates| > 1 {
      facts := facts + {AvcDuplicate};
    }
    var titles, titleFacts := DecideTitles(e.proctitles);
    var syscalls, syscallFacts := DecideSyscalls(e, schema, candidates, valid);
    d := Decision(|candidates| == 1 && titles == 1 && syscalls == 1, facts + titleFacts + syscallFacts, candidates);
  }
}
