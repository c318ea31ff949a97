/**
  Projecting a bounded audit observation into the closed diagnostic, record by record
  (scripts/selinux_isolation_contract.py).
 */
module AvcProjector {
  import opened Common
  import opened AuditRecords
  import opened AvcDecision
  import opened AvcDiagnostic
  import Strict = AvcNormalizer

  const SCHEMA := 2

  // ---------- Projecting records ----------

  function AvcProjection(r: Record, source: string, target: string): AvcFacts {
    AvcFacts(r.denial.Some? && r.denial.value != [], r.denial == Some(["read"]),
             Field(r, "tclass") == Some("file"), Field(r, "name") == Some("marker"),
             Field(r, "scontext") == Some(source), Field(r, "tcontext") == Some(target),
             Field(r, "permissive") == Some("0"), PidOf(r))
  }

  function SyscallProjection(r: Record): SyscallFacts {
    SyscallFacts(PidOf(r), Field(r, "comm") == Some(EXPECTED_COMMAND))
  }

  function Avcs(records: seq<Record>, source: string, target: string): seq<AvcFacts> {
    if records == [] then []
    else Avcs(records[..|records| - 1], source, target) + [AvcProjection(records[|records| - 1], source, target)]
  }

  function Proctitles(records: seq<Record>): seq<bool> {
    if records == [] then [] else Proctitles(records[..|records| - 1]) + [TitleMatches(records[|records| - 1])]
  }

  function SyscallsOf(records: seq<Record>): seq<SyscallFacts> {
    if records == [] then [] else SyscallsOf(records[..|records| - 1]) + [SyscallProjection(records[|records| - 1])]
  }

  /** The event as projected from all of its records so far, undecided. */
  function EventOf(records: seq<Record>, id: Identity, source: string, target: string): Event {
    Event(id, Count(records, id), Avcs(OfKind(records, id, Avc), source, target),
          Proctitles(OfKind(records, id, Proctitle)), SyscallsOf(OfKind(records, id, Syscall)), false, [])
  }

  function EventsOf(ids: seq<Identity>, records: seq<Record>, source: string, target: string): (events: seq<Event>)
    ensures |events| == |ids| && forall i :: 0 <= i < |ids| ==> events[i] == EventOf(records, ids[i], source, target)
  {
    if ids == [] then []
    else EventsOf(ids[..|ids| - 1], records, source, target) + [EventOf(records, ids[|ids| - 1], source, target)]
  }

  // ---------- The bounds, record by record ----------

  datatype Stop = Exceeds | Unreadable(fact: Fact)

  /** Why reading stops at `r`, if it does. */
  function StopAt(before: seq<Record>, r: Record): Option<Stop> {
    if |before| + 1 > MAX_AUDIT_RECORDS then Some(Exceeds)
    else if r.kind.None? then Some(Unreadable(RecordRepresentationMalformed))
    else if r.identity.None? || |r.identity.value.serial| > 64 then Some(Unreadable(EventIdParseMismatch))
    else
      var id := r.identity.value;
      if id !in Ids(before) && |Ids(before)| >= MAX_AUDIT_EVENTS then Some(Exceeds)
      else if Count(before, id) + 1 > MAX_EVENT_RECORDS
              || (!r.kind.value.OtherKind? && |OfKind(before, id, r.kind.value)| >= MAX_EVENT_COMPONENT_RECORDS)
      then Some(Exceeds)
      else None
  }

  /** The first record that reading stops at. */
  function Scan(records: seq<Record>): (r: Option<(nat, Stop)>)
    ensures r.Some? ==> r.value.0 < |records|
  {
    if records == [] then None
    else
      var before := records[..|records| - 1];
      var earlier := Scan(before);
      if earlier.Some? then earlier
      else
        var stop := StopAt(before, records[|records| - 1]);
        if stop.Some? then Some((|before|, stop.value)) else None
  }

  predicate EventBounded(records: seq<Record>, id: Identity) {
    && |id.serial| <= 64 && Count(records, id) <= MAX_EVENT_RECORDS
    && |OfKind(records, id, Avc)| <= MAX_EVENT_COMPONENT_RECORDS
    && |OfKind(records, id, Proctitle)| <= MAX_EVENT_COMPONENT_RECORDS
    && |OfKind(records, id, Syscall)| <= MAX_EVENT_COMPONENT_RECORDS
  }

  predicate Bounded(records: seq<Record>) {
    && |records| <= MAX_AUDIT_RECORDS && |Ids(records)| <= MAX_AUDIT_EVENTS
    && forall id :: id in Ids(records) ==> EventBounded(records, id)
  }

  /** One record's own event: the bounds hold afterwards exactly when there was room. */
  lemma RoomInEvent(before: seq<Record>, r: Record)
    requires WellFormed(r) && (r.identity.value in Ids(before) ==> EventBounded(before, r.identity.value))
    ensures EventBounded(before + [r], r.identity.value) <==>
            && |r.identity.value.serial| <= 64 && Count(before, r.identity.value) + 1 <= MAX_EVENT_RECORDS
            && (r.kind.value.OtherKind?
                || |OfKind(before, r.identity.value, r.kind.value)| < MAX_EVENT_COMPONENT_RECORDS)
  {
    hide Ids, Count, OfKind;
    var id := r.identity.value;
    Appended(before, r, id);
    if id !in Ids(before) {
      Unseen(before, id);
    }
  }

  lemma StopExact(before: seq<Record>, r: Record)
    requires Bounded(before) && Strict.AllWellFormed(before)
    ensures StopAt(before, r).None? <==> Bounded(before + [r]) && WellFormed(r)
  {
    hide Ids, Count, OfKind;
    var after := before + [r];
    if WellFormed(r) {
      var id := r.identity.value;
      RoomInEvent(before, r);
      Appended(before, r, id);
      assert id in Ids(after);
      assert Bounded(after) ==> EventBounded(after, id);
      hide EventBounded;
      forall other | other in Ids(before) && other != id ensures EventBounded(after, other) {
        OtherEventBounded(before, r, other);
      }
    }
  }

  lemma OtherEventBounded(before: seq<Record>, r: Record, other: Identity)
    requires EventBounded(before, other) && !Of(r, other)
    ensures EventBounded(before + [r], other)
  {
    Appended(before, r, other);
  }

  lemma {:induction false} PrefixBounded(before: seq<Record>, r: Record)
    requires Bounded(before + [r])
    ensures Bounded(before)
  {
    hide Ids, Count, OfKind;
    forall id | id in Ids(before) ensures EventBounded(before, id) {
      Appended(before, r, id);
      assert EventBounded(before + [r], id);
    }
    if r.identity.Some? {
      Appended(before, r, r.identity.value);
    } else {
      Appended(before, r, Identity("", "1"));
    }
  }

  /** Everything is read exactly when every record is well formed and every bound is kept. */
  lemma {:induction false} ScanPasses(records: seq<Record>)
    ensures Scan(records).None? <==> Strict.AllWellFormed(records) && Bounded(records)
  {
    hide StopAt, Bounded, WellFormed;
    if records == [] {
      NothingBounded();
    } else {
      var before, last := records[..|records| - 1], records[|records| - 1];
      assert records == before + [last];
      ScanPasses(before);
      if Bounded(records) {
        PrefixBounded(before, last);
      }
      if Bounded(before) && Strict.AllWellFormed(before) {
        StopExact(before, last);
      }
    }
  }

  lemma NothingBounded()
    ensures Bounded([])
  {
  }

  // ---------- The documents ----------

  /** A capture that yields no records. */
  function Captured(attempt: int, bytes: nat, outcome: Capture, ausearch: Option<int>, status: Option<int>): Diagnostic {
    Diagnostic(SCHEMA, outcome, if outcome.NoResult? then NoMatch else Invalid, attempt, ausearch, status, bytes,
               0, 0, 0, 0, [],
               match outcome
               case NoResult => [NoAvcRecordsObserved, AusearchNoResult]
               case ExecutionError => [CaptureExecutionError]
               case Oversized => [ObservationOversized]
               case _ => [ObservationMalformed])
  }

  function Exceeded(attempt: int, bytes: nat): Diagnostic {
    Captured(attempt, bytes, Oversized, Some(0), Some(0))
  }

  function AvcCount(records: seq<Record>): nat {
    if records == [] then 0
    else AvcCount(records[..|records| - 1]) + if records[|records| - 1].kind == Some(Avc) then 1 else 0
  }

  /** Reading stopped at record `k`: the counts so far are already in the document. */
  function Unread(records: seq<Record>, k: nat, fact: Fact, attempt: int, bytes: nat): Diagnostic
    requires k < |records|
  {
    Diagnostic(SCHEMA, Malformed, Invalid, attempt, Some(0), Some(0), bytes, k + 1, 0, AvcCount(records[..k]), 0, [],
               [fact, ObservationMalformed])
  }

  function Built(records: seq<Record>, source: string, target: string, attempt: int, bytes: nat): Diagnostic {
    Diagnostic(SCHEMA, RecordsObserved, Invalid, attempt, Some(0), Some(0), bytes, |records|, |Ids(records)|,
               AvcCount(records), 0, EventsOf(Ids(records), records, source, target), [])
  }

  function Observed(records: seq<Record>, source: string, target: string, attempt: int, bytes: nat): Diagnostic {
    Finalized(Built(records, source, target, attempt, bytes))
  }

  /** What was captured: its length, and its lines when they are text. */
  datatype Payload = Payload(bytes: nat, text: Option<seq<Line>>)

  /** The document an observation calls for; `size` measures a document's canonical text. */
  function Diagnosis(payload: Payload, source: string, target: string, attempt: int, size: Diagnostic -> nat): Diagnostic {
    if payload.bytes > MAX_AUDIT_OBSERVATION_BYTES then Exceeded(attempt, MAX_AUDIT_OBSERVATION_BYTES + 1)
    else if payload.text.None? then Captured(attempt, payload.bytes, Malformed, Some(0), Some(0))
    else
      var records := Records(payload.text.value);
      match Scan(records)
      case Some((k, Unreadable(fact))) => Unread(records, k, fact, attempt, payload.bytes)
      case Some((_, Exceeds)) => Exceeded(attempt, payload.bytes)
      case None =>
        var d := Observed(records, source, target, attempt, payload.bytes);
        if size(d) > MAX_AVC_DIAGNOSTIC_BYTES then Exceeded(attempt, payload.bytes) else d
  }

  // ---------- The projector ----------

  /** capture_avc_correlation_diagnostic: a document without records, validated before it is returned. */
  method CaptureResult(attempt: int, bytes: nat, outcome: Capture, ausearch: Option<int>, status: Option<int>,
                       size: Diagnostic -> nat) returns (r: Result<Diagnostic, ()>)
    ensures r.Success? ==> r.value == Captured(attempt, bytes, outcome, ausearch, status)
    ensures r.Success? <==>
      && !outcome.RecordsObserved?
      && var d := Captured(attempt, bytes, outcome, ausearch, status); Accepted(d, size(d))
  {
    if outcome.RecordsObserved? || !(1 <= attempt <= 12) || !ValidStatus(ausearch) || !ValidStatus(status)
       || bytes > MAX_AUDIT_OBSERVATION_BYTES + 1 {
      return Failure(());
    }
    var d := Diagnostic(SCHEMA, outcome, Invalid, attempt, ausearch, status, bytes, 0, 0, 0, 0, [], []);
    if outcome.NoResult? {
      d := d.(correlation := NoMatch, rejections := [NoAvcRecordsObserved, AusearchNoResult]);
    } else if outcome.ExecutionError? {
      d := d.(rejections := [CaptureExecutionError]);
    } else if outcome.Oversized? {
      d := d.(rejections := [ObservationOversized]);
    } else {
      d := d.(rejections := [ObservationMalformed]);
    }
    var valid := Validate(d, size(d));
    r := if valid then Success(d) else Failure(());
  }

  function Extended(e: Event, r: Record, source: string, target: string): Event {
    var counted := e.(recordCount := e.recordCount + 1);
    match r.kind
    case Some(Avc) => counted.(avcs := e.avcs + [AvcProjection(r, source, target)])
    case Some(Proctitle) => counted.(proctitles := e.proctitles + [TitleMatches(r)])
    case Some(Syscall) => counted.(syscalls := e.syscalls + [SyscallProjection(r)])
    case _ => counted
  }

  lemma ProjectedAppend(records: seq<Record>, r: Record, source: string, target: string)
    ensures Avcs(records + [r], source, target) == Avcs(records, source, target) + [AvcProjection(r, source, target)]
    ensures Proctitles(records + [r]) == Proctitles(records) + [TitleMatches(r)]
    ensures SyscallsOf(records + [r]) == SyscallsOf(records) + [SyscallProjection(r)]
  {
    assert (records + [r])[..|records|] == records;
  }

  /** What one more record makes of its event, and that it leaves the others alone. */
  lemma EventExtends(before: seq<Record>, r: Record, id: Identity, source: string, target: string)
    ensures EventOf(before + [r], id, source, target) ==
            if Of(r, id) then Extended(EventOf(before, id, source, target), r, source, target)
            else EventOf(before, id, source, target)
  {
    hide Count, OfKind, Avcs, Proctitles, SyscallsOf, AvcProjection, SyscallProjection, TitleMatches;
    Appended(before, r, id);
    var avcs, titles, calls := OfKind(before, id, Avc), OfKind(before, id, Proctitle), OfKind(before, id, Syscall);
    assert avcs + [] == avcs && titles + [] == titles && calls + [] == calls;
    if r.kind == Some(Avc) {
      ProjectedAppend(avcs, r, source, target);
    } else if r.kind == Some(Proctitle) {
      ProjectedAppend(titles, r, source, target);
    } else if r.kind == Some(Syscall) {
      ProjectedAppend(calls, r, source, target);
    }
  }

  function NewEvent(id: Identity): Event {
    Event(id, 0, [], [], [], false, [])
  }

  lemma EventsExtend(before: seq<Record>, r: Record, k: nat, source: string, target: string)
    requires WellFormed(r) && k <= |Ids(before)|
    requires if k < |Ids(before)| then Ids(before)[k] == r.identity.value else r.identity.value !in Ids(before)
    ensures var events := EventsOf(Ids(before), before, source, target);
            EventsOf(Ids(before + [r]), before + [r], source, target) ==
            if k < |events| then events[k := Extended(events[k], r, source, target)]
            else events + [Extended(NewEvent(r.identity.value), r, source, target)]
  {
    hide Ids, EventOf, Extended, EventsOf;
    var id, after := r.identity.value, before + [r];
    Appended(before, r, id);
    EventsPointwise(Ids(before), before, r, source, target);
    if k < |Ids(before)| {
      assert EventsOf(Ids(before), after, source, target) ==
             EventsOf(Ids(before), before, source, target)[k := Extended(EventsOf(Ids(before), before, source, target)[k],
                                                                         r, source, target)];
    } else {
      NewEventEmpty(before, id, source, target);
      EventExtends(before, r, id, source, target);
      assert EventsOf(Ids(before), after, source, target) == EventsOf(Ids(before), before, source, target);
    }
  }

  /** The events of given identities: one more record changes only its own. */
  lemma EventsPointwise(ids: seq<Identity>, before: seq<Record>, r: Record, source: string, target: string)
    requires WellFormed(r)
    ensures var older, newer := EventsOf(ids, before, source, target), EventsOf(ids, before + [r], source, target);
            forall i :: 0 <= i < |ids| ==>
              newer[i] == if ids[i] == r.identity.value then Extended(older[i], r, source, target) else older[i]
  {
    hide EventOf, Extended, EventsOf;
    forall i | 0 <= i < |ids| {
      EventExtends(before, r, ids[i], source, target);
    }
  }

  lemma NewEventEmpty(before: seq<Record>, id: Identity, source: string, target: string)
    requires id !in Ids(before)
    ensures EventOf(before, id, source, target) == NewEvent(id)
  {
    Unseen(before, id);
  }

  /** The dictionary lookup. */
  method Find(events: seq<Event>, id: Identity) returns (k: nat)
    ensures k <= |events|
    ensures if k < |events| then events[k].identity == id else forall e :: e in events ==> e.identity != id
  {
    for i := 0 to |events|
      invariant forall j :: 0 <= j < i ==> events[j].identity != id
    {
      if events[i].identity == id {
        return i;
      }
    }
    k := |events|;
  }

  lemma {:induction false} ScanKept(a: seq<Record>, b: seq<Record>)
    requires a <= b && Scan(a).Some?
    ensures Scan(b) == Scan(a)
    decreases |b|
  {
    if a != b {
      assert a <= b[..|b| - 1];
      ScanKept(a, b[..|b| - 1]);
    }
  }

  lemma ScanStops(before: seq<Record>, r: Record)
    requires Scan(before).None?
    ensures Scan(before + [r]) ==
            if StopAt(before, r).Some? then Some((|before|, StopAt(before, r).value)) else None
  {
    assert (before + [r])[..|before|] == before;
  }

  /** The events read so far are exactly the projection of the records read so far. */
  ghost predicate Projected(records: seq<Record>, events: seq<Event>, avcs: nat, source: string, target: string) {
    Scan(records).None? && events == EventsOf(Ids(records), records, source, target) && avcs == AvcCount(records)
  }

  method ProjectRecord(before: seq<Event>, r: Record, count: nat, avcs: nat, source: string, target: string,
                       ghost records: seq<Record>)
    returns (stop: Option<Stop>, events: seq<Event>, avcs': nat)
    requires Projected(records, before, avcs, source, target) && count == |records|
    ensures stop == StopAt(records, r)
    ensures stop.None? ==> Projected(records + [r], events, avcs', source, target)
  {
    hide Ids, Count, OfKind, EventOf, Extended;
    events, avcs' := before, avcs;
    if count + 1 > MAX_AUDIT_RECORDS {
      return Some(Exceeds), events, avcs;
    }
    if r.kind.None? {
      return Some(Unreadable(RecordRepresentationMalformed)), events, avcs;
    }
    if r.identity.None? || |r.identity.value.serial| > 64 {
      return Some(Unreadable(EventIdParseMismatch)), events, avcs;
    }
    var id := r.identity.value;
    var k := Find(before, id);
    EventIdentities(records, source, target);
    if k == |before| && |before| >= MAX_AUDIT_EVENTS {
      return Some(Exceeds), events, avcs;
    }
    var event := if k < |before| then before[k] else NewEvent(id);
    EventSizes(records, id, source, target);
    if event.recordCount + 1 > MAX_EVENT_RECORDS
       || (r.kind == Some(Avc) && |event.avcs| >= MAX_EVENT_COMPONENT_RECORDS)
       || (r.kind == Some(Proctitle) && |event.proctitles| >= MAX_EVENT_COMPONENT_RECORDS)
       || (r.kind == Some(Syscall) && |event.syscalls| >= MAX_EVENT_COMPONENT_RECORDS) {
      return Some(Exceeds), events, avcs;
    }
    EventsExtend(records, r, k, source, target);
    ScanStops(records, r);
    assert (records + [r])[..|records|] == records;
    event := Extended(event, r, source, target);
    events := if k < |before| then before[k := event] else before + [event];
    avcs' := if r.kind == Some(Avc) then avcs + 1 else avcs;
    stop := None;
  }

  lemma EventIdentities(records: seq<Record>, source: string, target: string)
    ensures var events := EventsOf(Ids(records), records, source, target);
            forall i :: 0 <= i < |events| ==> events[i].identity == Ids(records)[i] && events[i] in events
  {
  }

  lemma {:induction false} ProjectionSizes(records: seq<Record>, source: string, target: string)
    ensures |Avcs(records, source, target)| == |Proctitles(records)| == |SyscallsOf(records)| == |records|
  {
    if records != [] {
      ProjectionSizes(records[..|records| - 1], source, target);
    }
  }

  lemma EventSizes(records: seq<Record>, id: Identity, source: string, target: string)
    ensures var e := EventOf(records, id, source, target);
      && e.recordCount == Count(records, id) && |e.avcs| == |OfKind(records, id, Avc)|
      && |e.proctitles| == |OfKind(records, id, Proctitle)| && |e.syscalls| == |OfKind(records, id, Syscall)|
    ensures id !in Ids(records) ==> EventOf(records, id, source, target) == NewEvent(id)
  {
    ProjectionSizes(OfKind(records, id, Avc), source, target);
    ProjectionSizes(OfKind(records, id, Proctitle), source, target);
    ProjectionSizes(OfKind(records, id, Syscall), source, target);
    if id !in Ids(records) {
      NewEventEmpty(records, id, source, target);
    }
  }

  /** diagnose_avc_correlation_bytes, from the decoded lines on. */
  method DiagnoseLines(lines: seq<Line>, bytes: nat, source: string, target: string, attempt: int,
                       size: Diagnostic -> nat) returns (r: Result<Diagnostic, ()>)
    requires 1 <= attempt <= 12 && bytes <= MAX_AUDIT_OBSERVATION_BYTES
    ensures var d := Diagnosis(Payload(bytes, Some(lines)), source, target, attempt, size);
      && (r.Success? <==> Accepted(d, size(d)))
      && (r.Success? ==> r.value == d)
  {
    hide Records, Ids, StopAt, Accepted, Finalized, EventOf, Captured;
    var events: seq<Event>, count, avcs := [], 0, 0;
    NothingProjected(lines, source, target);
    for i := 0 to |lines|
      invariant Projected(Records(lines[..i]), events, avcs, source, target) && count == |Records(lines[..i])|
    {
      assert lines[..i + 1] == lines[..i] + [lines[i]];
      RecordsAppended(lines[..i], lines[i]);
      if lines[i].Some? {
        ghost var before := Records(lines[..i]);
        var stop, events', avcs' := ProjectRecord(events, lines[i].value, count, avcs, source, target, before);
        if stop.Some? {
          StoppedFor(lines, i, stop.value);
          if stop.value.Exceeds? {
            r := CaptureResult(attempt, bytes, Oversized, Some(0), Some(0), size);
          } else {
            var d := Diagnostic(SCHEMA, Malformed, Invalid, attempt, Some(0), Some(0), bytes, count + 1, 0, avcs, 0, [],
                                [stop.value.fact, ObservationMalformed]);
            var valid := Validate(d, size(d));
            r := if valid then Success(d) else Failure(());
          }
          return;
        }
        events, avcs, count := events', avcs', count + 1;
      } else {
        assert Records(lines[..i + 1]) == Records(lines[..i]);
      }
    }
    assert lines[..|lines|] == lines;
    var d := Finalize(Diagnostic(SCHEMA, RecordsObserved, Invalid, attempt, Some(0), Some(0), bytes, count, |events|, avcs,
                                 0, events, []));
    if size(d) > MAX_AVC_DIAGNOSTIC_BYTES {
      r := CaptureResult(attempt, bytes, Oversized, Some(0), Some(0), size);
    } else {
      var valid := Validate(d, size(d));
      r := if valid then Success(d) else Failure(());
    }
  }

  lemma NothingProjected(lines: seq<Line>, source: string, target: string)
    ensures Records(lines[..0]) == [] && Projected([], [], 0, source, target)
  {
  }

  lemma StoppedFor(lines: seq<Line>, i: nat, stop: Stop)
    requires i < |lines| && lines[i].Some?
    requires Scan(Records(lines[..i])).None? && StopAt(Records(lines[..i]), lines[i].value) == Some(stop)
    ensures Scan(Records(lines)) == Some((|Records(lines[..i])|, stop))
    ensures Records(lines)[..|Records(lines[..i])|] == Records(lines[..i])
  {
    hide Records, Scan, StopAt;
    var before := Records(lines[..i]);
    assert lines[..i + 1] == lines[..i] + [lines[i]];
    RecordsAppended(lines[..i], lines[i]);
    ScanStops(before, lines[i].value);
    Strict.RecordsKept(lines, i + 1);
    ScanKept(Records(lines[..i + 1]), Records(lines));
  }

  /** The diagnostic an observation gets; a failure means the validator refused it. */
  method Diagnose(payload: Payload, source: string, target: string, attempt: int, size: Diagnostic -> nat)
    returns (r: Result<Diagnostic, ()>)
    ensures var d := Diagnosis(payload, source, target, attempt, size);
      && (r.Success? <==> Accepted(d, size(d)))
      && (r.Success? ==> r.value == d)
  {
    hide Records, Scan, Finalized, EventsOf, Ids;
    if payload.bytes > MAX_AUDIT_OBSERVATION_BYTES {
      r := CaptureResult(attempt, MAX_AUDIT_OBSERVATION_BYTES + 1, Oversized, Some(0), Some(0), size);
    } else if payload.text.None? {
      r := CaptureResult(attempt, payload.bytes, Malformed, Some(0), Some(0), size);
    } else if !(1 <= attempt <= 12) {
      AttemptKept(payload, source, target, attempt, size);
      r := Failure(());
    } else {
      r := DiagnoseLines(payload.text.value, payload.bytes, source, target, attempt, size);
    }
  }

  lemma AttemptKept(payload: Payload, source: string, target: string, attempt: int, size: Diagnostic -> nat)
    ensures Diagnosis(payload, source, target, attempt, size).attempt == attempt
  {
  }
}
