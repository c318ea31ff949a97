/**
  Audit records as both correlators read them (scripts/selinux_isolation_contract.py).
  A record is kept as the textual matches its expressions find, with their counts.
 */
module AuditRecords {
  import opened Common
  import opened Decimals

  const MAX_PID := 2_147_483_647
  const EXPECTED_COMMAND := "cat"
  const EXPECTED_TITLE := "cat /foreign/marker"

  // ---------- Records ----------

  datatype Kind = Avc | Proctitle | Syscall | OtherKind

  datatype AnyIdentity = Identity(time: string, serial: string)
  type Identity = i: AnyIdentity | Decimal(i.serial) witness Identity("", "1")

  /**
    One line: its type and event identity where they can be read, the words of its denial,
    every occurrence of each field, and every occurrence of a trailing process title.
   */
  datatype Record = Record(kind: Option<Kind>, identity: Option<Identity>, denial: Option<seq<string>>,
                           fields: map<string, seq<string>>, titles: seq<string>)

  /** None stands for a blank or separator line. */
  type Line = Option<Record>

  function Occurrences(r: Record, name: string): seq<string> {
    if name in r.fields then r.fields[name] else []
  }

  /** A field is only readable when it occurs exactly once. */
  function Field(r: Record, name: string): Option<string> {
    if |Occurrences(r, name)| == 1 then Some(Occurrences(r, name)[0]) else None
  }

  predicate PidText(s: string) {
    Decimal(s) && |s| <= 10
  }

  datatype PidStatus = ValidPid | MissingPid | DuplicatePid | MalformedPid | OutOfRangePid

  datatype PidFacts = PidFacts(status: PidStatus, pid: Option<nat>)

  /** _pid_projection. */
  function PidOf(r: Record): PidFacts {
    var matches := Occurrences(r, "pid");
    if matches == [] then PidFacts(MissingPid, None)
    else if |matches| != 1 then PidFacts(DuplicatePid, None)
    else if !PidText(matches[0]) then PidFacts(MalformedPid, None)
    else if NatOf(matches[0]) > MAX_PID then PidFacts(OutOfRangePid, None)
    else PidFacts(ValidPid, Some(NatOf(matches[0])))
  }

  /** _avc_matches: the pid of a record that is the denial looked for. */
  function AvcPid(r: Record, source: string, target: string): Option<nat> {
    if r.denial.None? || r.denial.value == [] then None
    else if Field(r, "scontext") != Some(source) || Field(r, "tcontext") != Some(target)
            || Field(r, "permissive") != Some("0") then None
    else
      var raw := Field(r, "pid");
      if raw.None? || !PidText(raw.value) then None
      else if NatOf(raw.value) <= MAX_PID then Some(NatOf(raw.value))
      else None
  }

  predicate TitleMatches(r: Record) {
    |r.titles| == 1 && r.titles[0] == EXPECTED_TITLE
  }

  /** _syscall_matches compares text with text. */
  predicate SyscallMatches(r: Record, pid: nat) {
    Field(r, "pid") == Some(TextOf(pid)) && Field(r, "comm") == Some(EXPECTED_COMMAND)
  }

  /** A valid pid found in a record has exactly one spelling. */
  lemma PidSpelling(r: Record, pid: nat)
    requires 0 < pid <= MAX_PID
    ensures Field(r, "pid") == Some(TextOf(pid)) <==> PidOf(r) == PidFacts(ValidPid, Some(pid))
  {
    TextReadsBack(pid);
    TextLength(pid, 10);
    if Field(r, "pid").Some? && PidText(Field(r, "pid").value) {
      DecimalWritesBack(Field(r, "pid").value);
    }
  }

  lemma AvcPidRange(r: Record, source: string, target: string)
    ensures AvcPid(r, source, target).Some? ==> 0 < AvcPid(r, source, target).value <= MAX_PID
  {
    if AvcPid(r, source, target).Some? {
      DecimalWritesBack(Field(r, "pid").value);
    }
  }

  // ---------- Grouping by event ----------

  predicate WellFormed(r: Record) {
    r.kind.Some? && r.identity.Some?
  }

  /** The lines that carry a record. */
  function Records(lines: seq<Line>): (records: seq<Record>)
    ensures |records| <= |lines|
  {
    if lines == [] then []
    else Records(lines[..|lines| - 1]) + if lines[|lines| - 1].Some? then [lines[|lines| - 1].value] else []
  }

  predicate Of(r: Record, id: Identity) {
    r.identity == Some(id)
  }

  /** The event's records of one kind, in order. */
  function OfKind(records: seq<Record>, id: Identity, kind: Kind): seq<Record> {
    if records == [] then []
    else
      var last := records[|records| - 1];
      OfKind(records[..|records| - 1], id, kind) + if Of(last, id) && last.kind == Some(kind) then [last] else []
  }

  function Count(records: seq<Record>, id: Identity): nat {
    if records == [] then 0
    else Count(records[..|records| - 1], id) + if Of(records[|records| - 1], id) then 1 else 0
  }

  /** Event identities in order of first appearance. */
  function Ids(records: seq<Record>): (ids: seq<Identity>)
    ensures forall i, j :: 0 <= i < j < |ids| ==> ids[i] != ids[j]
    ensures forall id :: id in ids <==> exists i :: 0 <= i < |records| && Of(records[i], id)
  {
    if records == [] then []
    else
      var ids, last := Ids(records[..|records| - 1]), records[|records| - 1];
      assert forall i :: 0 <= i < |records| - 1 ==> records[..|records| - 1][i] == records[i];
      if last.identity.None? || last.identity.value in ids then ids
      else ids + [last.identity.value]
  }

  /** One more record: what each grouping becomes. */
  lemma Appended(records: seq<Record>, r: Record, id: Identity)
    ensures Count(records + [r], id) == Count(records, id) + if Of(r, id) then 1 else 0
    ensures forall kind ::
      OfKind(records + [r], id, kind) == OfKind(records, id, kind) + if Of(r, id) && r.kind == Some(kind) then [r] else []
    ensures Ids(records + [r]) ==
            if r.identity.None? || r.identity.value in Ids(records) then Ids(records)
            else Ids(records) + [r.identity.value]
  {
    assert (records + [r])[..|records|] == records;
  }

  lemma RecordsAppended(lines: seq<Line>, line: Line)
    ensures Records(lines + [line]) == Records(lines) + if line.Some? then [line.value] else []
  {
    assert (lines + [line])[..|lines|] == lines;
  }

  /** An event nothing was seen of is empty. */
  lemma {:induction false} Unseen(records: seq<Record>, id: Identity)
    requires id !in Ids(records)
    ensures Count(records, id) == 0 && forall kind :: OfKind(records, id, kind) == []
  {
    if records != [] {
      var before, last := records[..|records| - 1], records[|records| - 1];
      assert records == before + [last];
      Appended(before, last, id);
      Unseen(before, id);
    }
  }

  lemma {:induction false} OfKindIsOfEvent(records: seq<Record>, id: Identity, kind: Kind)
    ensures forall r :: r in OfKind(records, id, kind) ==> r in records && Of(r, id) && r.kind == Some(kind)
    ensures |OfKind(records, id, kind)| <= Count(records, id)
  {
    if records != [] {
      OfKindIsOfEvent(records[..|records| - 1], id, kind);
    }
  }

  lemma {:induction false} ComponentsFit(records: seq<Record>, id: Identity)
    ensures |OfKind(records, id, Avc)| + |OfKind(records, id, Proctitle)| + |OfKind(records, id, Syscall)| <= Count(records, id)
  {
    if records != [] {
      ComponentsFit(records[..|records| - 1], id);
    }
  }
}
