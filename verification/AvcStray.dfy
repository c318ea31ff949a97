/**
  An observation only one of the two correlators admits: a proven denial, and another event that
  repeats a system call of a pid no matching denial names (scripts/selinux_isolation_contract.py).
 */
module AvcStray {
  import opened Common
  import opened AuditRecords
  import opened Decimals
  import opened AvcDecision
  import opened AvcDiagnostic
  import opened AvcProjector
  import opened AvcAgreement
  import Strict = AvcNormalizer

  const DENIED: Identity := Identity("01/01/26 00:00:00.000", "1")
  const STRAY: Identity := Identity("01/01/26 00:00:00.000", "2")

  /** A denial record; in permissive mode nothing was enforced. */
  function DenialRecord(id: Identity, pid: string, source: string, target: string, permissive: string): Record {
    Record(Some(Avc), Some(id), Some(["read"]),
           map["pid" := [pid], "scontext" := [source], "tcontext" := [target], "permissive" := [permissive]], [])
  }

  function TitleRecord(id: Identity): Record {
    Record(Some(Proctitle), Some(id), None, map[], [EXPECTED_TITLE])
  }

  function CallRecord(id: Identity, pid: string): Record {
    Record(Some(Syscall), Some(id), None, map["pid" := [pid], "comm" := [EXPECTED_COMMAND]], [])
  }

  function DeniedRecords(source: string, target: string): seq<Record> {
    [DenialRecord(DENIED, "7", source, target, "0"), TitleRecord(DENIED), CallRecord(DENIED, "7")]
  }

  function StrayRecords(source: string, target: string): seq<Record> {
    [DenialRecord(STRAY, "9", source, target, "1"), CallRecord(STRAY, "9"), CallRecord(STRAY, "9")]
  }

  lemma FieldNames()
    ensures "pid" != "scontext" && "pid" != "tcontext" && "pid" != "permissive" && "scontext" != "tcontext"
    ensures "scontext" != "permissive" && "tcontext" != "permissive" && "pid" != "comm"
  {
    assert |"pid"| == 3 && |"scontext"| == 8 && |"tcontext"| == 8 && |"permissive"| == 10 && |"comm"| == 4;
    assert "scontext"[0] == 's' && "tcontext"[0] == 't';
  }

  lemma DigitPid(pid: string)
    requires pid == "7" || pid == "9"
    ensures PidText(pid) && NatOf(pid) == (if pid == "7" then 7 else 9) && TextOf(NatOf(pid)) == pid
  {
    assert pid[..|pid| - 1] == [];
  }

  lemma DenialReads(id: Identity, pid: string, source: string, target: string, permissive: string)
    requires pid == "7" || pid == "9"
    ensures var r := DenialRecord(id, pid, source, target, permissive);
      && AvcPid(r, source, target) == (if permissive == "0" then Some(NatOf(pid)) else None)
      && PidOf(r) == PidFacts(ValidPid, Some(NatOf(pid)))
  {
    FieldNames();
    DigitPid(pid);
    hide NatOf;
  }

  lemma CallReads(id: Identity, pid: string)
    requires pid == "7" || pid == "9"
    ensures SyscallMatches(CallRecord(id, pid), NatOf(pid))
    ensures PidOf(CallRecord(id, pid)) == PidFacts(ValidPid, Some(NatOf(pid)))
    ensures SyscallProjection(CallRecord(id, pid)).command
  {
    FieldNames();
    DigitPid(pid);
    hide NatOf, TextOf;
  }

  /** Three records of one event, after others. */
  lemma ThreeMore(before: seq<Record>, a: Record, b: Record, c: Record, id: Identity, kind: Kind)
    ensures OfKind(before + [a, b, c], id, kind) ==
            OfKind(before, id, kind) + (if Of(a, id) && a.kind == Some(kind) then [a] else [])
            + (if Of(b, id) && b.kind == Some(kind) then [b] else [])
            + (if Of(c, id) && c.kind == Some(kind) then [c] else [])
  {
    hide OfKind;
    assert before + [a, b, c] == ((before + [a]) + [b]) + [c];
    Appended(before, a, id);
    Appended(before + [a], b, id);
    Appended((before + [a]) + [b], c, id);
  }

  lemma NoRecords(id: Identity, kind: Kind)
    ensures OfKind([], id, kind) == []
  {
  }

  function Witness(source: string, target: string): seq<Record> {
    DeniedRecords(source, target) + StrayRecords(source, target)
  }

  lemma Components(source: string, target: string)
    ensures Strict.ComponentsOf(Witness(source, target), DENIED) ==
            Strict.Components([DenialRecord(DENIED, "7", source, target, "0")], [TitleRecord(DENIED)],
                              [CallRecord(DENIED, "7")])
    ensures Strict.ComponentsOf(Witness(source, target), STRAY) ==
            Strict.Components([DenialRecord(STRAY, "9", source, target, "1")], [],
                              [CallRecord(STRAY, "9"), CallRecord(STRAY, "9")])
  {
    hide OfKind;
    assert DENIED != STRAY by { assert DENIED.serial[0] != STRAY.serial[0]; }
    var d, s := DeniedRecords(source, target), StrayRecords(source, target);
    forall id: Identity, kind: Kind
      ensures OfKind(d + s, id, kind) ==
              (if Of(d[0], id) && d[0].kind == Some(kind) then [d[0]] else [])
              + (if Of(d[1], id) && d[1].kind == Some(kind) then [d[1]] else [])
              + (if Of(d[2], id) && d[2].kind == Some(kind) then [d[2]] else [])
              + (if Of(s[0], id) && s[0].kind == Some(kind) then [s[0]] else [])
              + (if Of(s[1], id) && s[1].kind == Some(kind) then [s[1]] else [])
              + (if Of(s[2], id) && s[2].kind == Some(kind) then [s[2]] else [])
    {
      NoRecords(id, kind);
      assert [] + [d[0], d[1], d[2]] == d && d + [s[0], s[1], s[2]] == d + s;
      ThreeMore([], d[0], d[1], d[2], id, kind);
      ThreeMore(d, s[0], s[1], s[2], id, kind);
    }
  }

  lemma WitnessIds(source: string, target: string)
    ensures forall id :: id in Ids(Witness(source, target)) <==> id == DENIED || id == STRAY
  {
    hide Ids;
    var w := Witness(source, target);
    assert Of(w[0], DENIED) && Of(w[3], STRAY);
    assert forall i :: 0 <= i < |w| ==> Of(w[i], DENIED) || Of(w[i], STRAY);
  }

  lemma DeniedReading(source: string, target: string)
    ensures Strict.ReadEvent(Witness(source, target), DENIED, source, target) == Strict.Candidate(7)
  {
    Components(source, target);
    hide OfKind, Strict.ComponentsOf;
    DenialReads(DENIED, "7", source, target, "0");
    CallReads(DENIED, "7");
    DigitPid("7");
    var denial := [DenialRecord(DENIED, "7", source, target, "0")];
    var title, call := [TitleRecord(DENIED)], [CallRecord(DENIED, "7")];
    hide NatOf, AvcPid, SyscallMatches, DenialRecord, CallRecord;
    assert denial[..0] == [] && title[..0] == [] && call[..0] == [];
    assert Strict.StrictPids([], source, target) == [] && Strict.StrictPids(denial, source, target) == [7];
    assert Strict.StrictTitles(title) == 1;
    assert Strict.StrictSyscalls(call, 7) == 1;
  }

  /** One unmatched denial record and one call, twice. */
  lemma StrayFacts(denial: Record, call: Record, source: string, target: string)
    requires AvcPid(denial, source, target).None? && PidOf(denial) == PidFacts(ValidPid, Some(9))
    requires PidOf(call) == PidFacts(ValidPid, Some(9)) && SyscallProjection(call).command
    ensures Strict.StrictPids([denial], source, target) == []
    ensures ValidPids(Avcs([denial], source, target)) == [9] && Syscalls(SyscallsOf([call, call]), 9) == 2
  {
    hide AvcPid, PidOf, Field;
    assert [denial][..0] == [] && [call][..0] == [] && [call, call][..1] == [call];
    var a, s := AvcProjection(denial, source, target), SyscallProjection(call);
    assert Avcs([], source, target) == [] && Avcs([denial], source, target) == [a] && [a][..0] == [];
    assert SyscallsOf([]) == [] && SyscallsOf([call]) == [s] && SyscallsOf([call, call]) == [s, s] && [s, s][..1] == [s];
    assert [s][..0] == [] && Syscalls([], 9) == 0 && Syscalls([s], 9) == 1;
    assert ValidPids([]) == [];
  }

  /** An event of exactly these records is no candidate, and repeats its call. */
  lemma StrayEvent(w: seq<Record>, id: Identity, denial: Record, call: Record, source: string, target: string)
    requires Strict.ComponentsOf(w, id) == Strict.Components([denial], [], [call, call])
    requires AvcPid(denial, source, target).None? && PidOf(denial) == PidFacts(ValidPid, Some(9))
    requires PidOf(call) == PidFacts(ValidPid, Some(9)) && SyscallProjection(call).command
    ensures Strict.ReadEvent(w, id, source, target) == Strict.NoCandidate && StrayDuplicate(w, id, source, target)
  {
    hide OfKind, Count, Avcs, SyscallsOf, AvcPid, PidOf, SyscallProjection, ValidPids, Syscalls, Strict.StrictPids;
    StrayFacts(denial, call, source, target);
  }

  lemma StrayReading(source: string, target: string)
    ensures Strict.ReadEvent(Witness(source, target), STRAY, source, target) == Strict.NoCandidate
    ensures StrayDuplicate(Witness(source, target), STRAY, source, target)
  {
    hide OfKind, Strict.ComponentsOf, NatOf, AvcPid, SyscallMatches, PidOf, SyscallProjection, StrayDuplicate, Witness;
    hide Strict.ReadEvent, DenialRecord, CallRecord;
    Components(source, target);
    DenialReads(STRAY, "9", source, target, "1");
    assert "1" != "0";
    CallReads(STRAY, "9");
    DigitPid("9");
    StrayEvent(Witness(source, target), STRAY, DenialRecord(STRAY, "9", source, target, "1"), CallRecord(STRAY, "9"),
               source, target);
  }

  lemma WitnessWellFormed(source: string, target: string)
    ensures Strict.AllWellFormed(Witness(source, target))
  {
  }

  /** Two events, of which one is the denial and the other strays. */
  lemma OneDenialOneStray(w: seq<Record>, denied: Identity, stray: Identity, pid: nat, source: string, target: string)
    requires Strict.AllWellFormed(w) && forall id :: id in Ids(w) <==> id == denied || id == stray
    requires Strict.ReadEvent(w, denied, source, target) == Strict.Candidate(pid)
    requires Strict.ReadEvent(w, stray, source, target) == Strict.NoCandidate && StrayDuplicate(w, stray, source, target)
    ensures Strict.Unique(w, source, target, Strict.Denial(denied, pid)) && Stray(w, source, target)
  {
    hide Strict.ReadEvent, StrayDuplicate, Ids;
  }

  lemma {:induction false} FewEvents(records: seq<Record>, id: Identity)
    ensures |Ids(records)| <= |records| && Count(records, id) <= |records|
  {
    if records != [] {
      var before, last := records[..|records| - 1], records[|records| - 1];
      assert records == before + [last];
      FewEvents(before, id);
      Appended(before, last, id);
    }
  }

  lemma SerialsShort()
    ensures |DENIED.serial| == 1 && |STRAY.serial| == 1
  {
  }

  /** The witness is far within every bound, so it is read to its end. */
  lemma WitnessRead(source: string, target: string)
    ensures Scan(Witness(source, target)).None?
  {
    var w := Witness(source, target);
    assert |w| == 6;
    hide Witness, Ids, Count, OfKind, Scan;
    WitnessWellFormed(source, target);
    WitnessIds(source, target);
    FewEvents(w, DENIED);
    FewEvents(w, STRAY);
    Components(source, target);
    SerialsShort();
    hide DENIED, STRAY;
    assert EventBounded(w, DENIED) && EventBounded(w, STRAY);
    ScanPasses(w);
  }

  /**
    The strict reading proves the denial of pid 7; the diagnostic of the same records refuses it. That is the
    document returned for any payload of those records within the size bounds.
   */
  lemma StrictAdmitsDiagnosticRefuses(payload: Payload, source: string, target: string, attempt: int,
                                      size: Diagnostic -> nat)
    ensures Strict.Unique(Witness(source, target), source, target, Strict.Denial(DENIED, 7))
    ensures Stray(Witness(source, target), source, target) && Scan(Witness(source, target)).None?
    ensures !Observed(Witness(source, target), source, target, attempt, payload.bytes).correlation.Admitted?
    ensures && payload.text.Some? && Records(payload.text.value) == Witness(source, target)
            && payload.bytes <= MAX_AUDIT_OBSERVATION_BYTES
            && size(Observed(Witness(source, target), source, target, attempt, payload.bytes))
               <= MAX_AVC_DIAGNOSTIC_BYTES ==>
      Diagnosis(payload, source, target, attempt, size) ==
      Observed(Witness(source, target), source, target, attempt, payload.bytes)
  {
    hide Ids, Witness, Strict.ReadEvent, Strict.AllWellFormed, StrayDuplicate, Observed, Strict.Unique, Stray, Scan, Records;
    var w := Witness(source, target);
    WitnessWellFormed(source, target);
    WitnessIds(source, target);
    DeniedReading(source, target);
    StrayReading(source, target);
    OneDenialOneStray(w, DENIED, STRAY, 7, source, target);
    Agreement(w, source, target, attempt, payload.bytes);
    WitnessRead(source, target);
  }
}
