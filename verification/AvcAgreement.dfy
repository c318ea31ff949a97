/**
  The two correlators and the validator agree (scripts/selinux_isolation_contract.py).
 */
module AvcAgreement {
  import opened Common
  import opened AuditRecords
  import opened Decimals
  import opened AvcDecision
  import opened AvcDiagnostic
  import opened AvcProjector
  import Strict = AvcNormalizer

  // ---------- One record, two representations ----------

  lemma SameAvc(r: Record, source: string, target: string)
    ensures var a := AvcProjection(r, source, target);
      && (MatchesAvc(a, SCHEMA) <==> AvcPid(r, source, target).Some?)
      && (MatchesAvc(a, SCHEMA) ==> a.pid.pid == AvcPid(r, source, target))
  {
  }

  lemma {:induction false} SamePids(avcs: seq<Record>, source: string, target: string)
    ensures CandidatePids(Avcs(avcs, source, target), SCHEMA) == Strict.StrictPids(avcs, source, target)
    ensures forall p :: p in Strict.StrictPids(avcs, source, target) ==> 0 < p <= MAX_PID
  {
    hide AvcProjection, MatchesAvc, AvcPid;
    if avcs != [] {
      var before, last := avcs[..|avcs| - 1], avcs[|avcs| - 1];
      SamePids(before, source, target);
      SameAvc(last, source, target);
      AvcPidRange(last, source, target);
      var all := Avcs(avcs, source, target);
      assert all[..|all| - 1] == Avcs(before, source, target);
    }
  }

  lemma {:induction false} SameTitles(proctitles: seq<Record>)
    ensures Titles(Proctitles(proctitles)) == Strict.StrictTitles(proctitles)
  {
    if proctitles != [] {
      SameTitles(proctitles[..|proctitles| - 1]);
      var all := Proctitles(proctitles);
      assert all[..|all| - 1] == Proctitles(proctitles[..|proctitles| - 1]);
    }
  }

  /** Text compared with text on one side, number with number on the other. */
  lemma {:induction false} SameSyscalls(syscalls: seq<Record>, pid: nat)
    requires 0 < pid <= MAX_PID
    ensures Syscalls(SyscallsOf(syscalls), pid) == Strict.StrictSyscalls(syscalls, pid)
  {
    hide PidOf, Field, TextOf;
    if syscalls != [] {
      var before, last := syscalls[..|syscalls| - 1], syscalls[|syscalls| - 1];
      SameSyscalls(before, pid);
      PidSpelling(last, pid);
      ProjectedPid(last);
      var all := SyscallsOf(syscalls);
      assert all[..|all| - 1] == SyscallsOf(before);
    }
  }

  lemma ProjectedPid(r: Record)
    ensures PidOf(r).status.ValidPid? <==> PidOf(r).pid.Some?
    ensures PidConsistent(PidOf(r))
  {
    if PidOf(r).status.ValidPid? {
      DecimalWritesBack(Occurrences(r, "pid")[0]);
    }
  }

  // ---------- One event ----------

  /** More than one call of the only readable pid, although no record of the event is the denial. */
  predicate StrayDuplicate(records: seq<Record>, id: Identity, source: string, target: string) {
    var e := EventOf(records, id, source, target);
    && Strict.StrictPids(OfKind(records, id, Avc), source, target) == []
    && |ValidPids(e.avcs)| == 1 && Syscalls(e.syscalls, ValidPids(e.avcs)[0]) > 1
  }

  lemma {:induction false} MismatchesOnly(avcs: seq<AvcFacts>)
    ensures {AvcDuplicate, ProctitleDuplicate, SyscallDuplicate} !! AllMismatches(avcs, SCHEMA)
  {
    if avcs != [] {
      MismatchesOnly(avcs[..|avcs| - 1]);
    }
  }

  lemma AmbiguousExact(e: Event)
    ensures Ambiguous(e, SCHEMA) <==>
            |CandidatePids(e.avcs, SCHEMA)| > 1 || Titles(e.proctitles) > 1 || MatchingSyscalls(e, SCHEMA) > 1
  {
    hide CandidatePids, SyscallPid;
    MismatchesOnly(e.avcs);
  }

  /** An event's candidacy and ambiguity, read from its facts and read from its text. */
  lemma SameEvent(records: seq<Record>, id: Identity, source: string, target: string)
    ensures var e, reading := EventOf(records, id, source, target), Strict.ReadEvent(records, id, source, target);
      && (IsCandidate(e, SCHEMA) <==> reading.Candidate?)
      && (reading.Candidate? ==> CandidatePids(e.avcs, SCHEMA) == [reading.pid])
      && (Ambiguous(e, SCHEMA) <==> reading.Duplicated? || StrayDuplicate(records, id, source, target))
  {
    hide OfKind, Count, Avcs, Proctitles, SyscallsOf, CandidatePids, Titles, Syscalls, Ambiguous, ValidPids;
    hide Strict.StrictPids, Strict.StrictTitles, Strict.StrictSyscalls;
    var e := EventOf(records, id, source, target);
    var c := Strict.ComponentsOf(records, id);
    SamePids(c.avc, source, target);
    SameTitles(c.proctitle);
    var pids := Strict.StrictPids(c.avc, source, target);
    if |pids| == 1 {
      assert pids[0] in pids;
      SameSyscalls(c.syscall, pids[0]);
    }
    AmbiguousExact(e);
  }

  // ---------- The whole observation ----------

  lemma {:induction false} SameCandidates(ids: seq<Identity>, records: seq<Record>, source: string, target: string)
    ensures CandidateCount(EventsOf(ids, records, source, target), SCHEMA) ==
            |Strict.Candidates(ids, records, source, target)|
  {
    hide EventOf, IsCandidate, Strict.ReadEvent;
    if ids != [] {
      var before := ids[..|ids| - 1];
      SameCandidates(before, records, source, target);
      SameEvent(records, ids[|ids| - 1], source, target);
      var events := EventsOf(ids, records, source, target);
      assert events[..|events| - 1] == EventsOf(before, records, source, target);
    }
  }

  predicate Stray(records: seq<Record>, source: string, target: string) {
    exists id :: id in Ids(records) && StrayDuplicate(records, id, source, target)
  }

  lemma SameAmbiguities(records: seq<Record>, source: string, target: string)
    ensures AnyAmbiguous(EventsOf(Ids(records), records, source, target), SCHEMA) <==>
            !Strict.NoneDuplicated(records, source, target) || Stray(records, source, target)
  {
    hide Ids, EventOf, Ambiguous, Strict.ReadEvent, StrayDuplicate;
    var events := EventsOf(Ids(records), records, source, target);
    forall id ensures Ambiguous(EventOf(records, id, source, target), SCHEMA) <==>
      Strict.ReadEvent(records, id, source, target).Duplicated? || StrayDuplicate(records, id, source, target)
    {
      SameEvent(records, id, source, target);
    }
    forall id | id in Ids(records) ensures EventOf(records, id, source, target) in events {
      var i :| 0 <= i < |Ids(records)| && Ids(records)[i] == id;
      assert events[i] == EventOf(records, id, source, target);
    }
  }

  /**
    Within the bounds the diagnostic is admitted exactly when the strict reading proves one denial
    and no event repeats a call of a pid that is not the denial's.
   */
  lemma Agreement(records: seq<Record>, source: string, target: string, attempt: int, bytes: nat)
    requires Strict.AllWellFormed(records)
    ensures Observed(records, source, target, attempt, bytes).correlation.Admitted? <==>
            (exists d :: Strict.Unique(records, source, target, d)) && !Stray(records, source, target)
  {
    hide Ids, EventOf, AnyAmbiguous, CandidateCount, Strict.NoneDuplicated, Strict.Unique, Strict.Candidates, Stray;
    var all := Strict.Candidates(Ids(records), records, source, target);
    SameCandidates(Ids(records), records, source, target);
    SameAmbiguities(records, source, target);
    if Strict.NoneDuplicated(records, source, target) {
      Strict.CandidatesDecide(records, source, target);
      assert |all| == 1 ==> all == [all[0]];
    } else {
      NotUnique(records, source, target);
    }
  }

  lemma NotUnique(records: seq<Record>, source: string, target: string)
    requires !Strict.NoneDuplicated(records, source, target)
    ensures !exists d :: Strict.Unique(records, source, target, d)
  {
  }

  /** And it is the same event and pid that both admit. */
  lemma SameDenial(records: seq<Record>, source: string, target: string, d: Strict.Denial, i: nat)
    requires Strict.Unique(records, source, target, d) && i < |Ids(records)|
    ensures var e := EventsOf(Ids(records), records, source, target)[i];
      && (IsCandidate(e, SCHEMA) <==> e.identity == d.event)
      && (IsCandidate(e, SCHEMA) ==> CandidatePids(e.avcs, SCHEMA) == [d.pid])
  {
    hide Strict.ReadEvent, IsCandidate;
    SameEvent(records, Ids(records)[i], source, target);
  }

  // ---------- The validator accepts what the projector builds ----------

  lemma {:induction false} CountsAddUp(ids: seq<Identity>, records: seq<Record>, r: Record, source: string, target: string)
    requires forall i, j :: 0 <= i < j < |ids| ==> ids[i] != ids[j]
    ensures var before, after := EventsOf(ids, records, source, target), EventsOf(ids, records + [r], source, target);
      && TotalRecords(after) == TotalRecords(before) + (if r.identity.Some? && r.identity.value in ids then 1 else 0)
      && TotalAvcs(after) == TotalAvcs(before)
           + (if r.identity.Some? && r.identity.value in ids && r.kind == Some(Avc) then 1 else 0)
  {
    hide EventOf, Count, OfKind;
    if ids != [] {
      var rest, last := ids[..|ids| - 1], ids[|ids| - 1];
      assert ids == rest + [last];
      CountsAddUp(rest, records, r, source, target);
      var before, after := EventsOf(ids, records, source, target), EventsOf(ids, records + [r], source, target);
      assert before[..|before| - 1] == EventsOf(rest, records, source, target);
      assert after[..|after| - 1] == EventsOf(rest, records + [r], source, target);
      EventCounts(records, r, last, source, target);
    }
  }

  lemma EventCounts(records: seq<Record>, r: Record, id: Identity, source: string, target: string)
    ensures var before, after := EventOf(records, id, source, target), EventOf(records + [r], id, source, target);
      && after.recordCount == before.recordCount + (if Of(r, id) then 1 else 0)
      && |after.avcs| == |before.avcs| + if Of(r, id) && r.kind == Some(Avc) then 1 else 0
  {
    hide EventOf;
    EventExtends(records, r, id, source, target);
  }

  predicate TotalsMatch(records: seq<Record>, source: string, target: string) {
    var events := EventsOf(Ids(records), records, source, target);
    TotalRecords(events) == |records| && TotalAvcs(events) == AvcCount(records)
  }

  lemma TotalsStep(before: seq<Record>, last: Record, source: string, target: string)
    requires TotalsMatch(before, source, target) && WellFormed(last)
    ensures TotalsMatch(before + [last], source, target)
  {
    hide EventsOf, Ids, TotalRecords, TotalAvcs, AvcCount;
    AvcCountAppended(before, last);
    Appended(before, last, last.identity.value);
    CountsAddUp(Ids(before), before, last, source, target);
    if last.identity.value !in Ids(before) {
      NewEventCounts(before, last, source, target);
    }
  }

  lemma AvcCountAppended(before: seq<Record>, last: Record)
    ensures AvcCount(before + [last]) == AvcCount(before) + if last.kind == Some(Avc) then 1 else 0
  {
    assert (before + [last])[..|before|] == before;
  }

  /** The events hold every record and every denial record, once. */
  lemma {:induction false} TotalsExact(records: seq<Record>, source: string, target: string)
    requires Strict.AllWellFormed(records)
    ensures TotalsMatch(records, source, target)
  {
    if records != [] {
      var before, last := records[..|records| - 1], records[|records| - 1];
      assert records == before + [last] && last in records;
      TotalsExact(before, source, target);
      TotalsStep(before, last, source, target);
    }
  }

  lemma NewEventCounts(before: seq<Record>, last: Record, source: string, target: string)
    requires WellFormed(last) && last.identity.value !in Ids(before)
    ensures var records := before + [last];
            var older, events := EventsOf(Ids(before), records, source, target), EventsOf(Ids(records), records, source, target);
      && TotalRecords(events) == TotalRecords(older) + 1
      && TotalAvcs(events) == TotalAvcs(older) + (if last.kind == Some(Avc) then 1 else 0)
  {
    hide EventOf, Count, OfKind, Ids;
    var id, records := last.identity.value, before + [last];
    Appended(before, last, id);
    var events := EventsOf(Ids(records), records, source, target);
    assert Ids(records)[..|Ids(records)| - 1] == Ids(before);
    assert events[..|events| - 1] == EventsOf(Ids(before), records, source, target);
    EventCounts(before, last, id, source, target);
    NewEventEmpty(before, id, source, target);
  }

  lemma {:induction false} PidsConsistent(records: seq<Record>, source: string, target: string)
    ensures forall a :: a in Avcs(records, source, target) ==> PidConsistent(a.pid)
    ensures forall s :: s in SyscallsOf(records) ==> PidConsistent(s.pid)
  {
    hide PidOf, PidConsistent;
    if records != [] {
      PidsConsistent(records[..|records| - 1], source, target);
      ProjectedPid(records[|records| - 1]);
    }
  }

  lemma {:induction false} CountedOnce(records: seq<Record>, id: Identity)
    requires id in Ids(records)
    ensures Count(records, id) >= 1
  {
    if records != [] {
      var before, last := records[..|records| - 1], records[|records| - 1];
      assert records == before + [last];
      Appended(before, last, id);
      if id in Ids(before) {
        CountedOnce(before, id);
      }
    }
  }

  lemma ProjectedEventValid(records: seq<Record>, id: Identity, rejections: set<Fact>, candidate: bool, source: string,
                            target: string)
    requires id in Ids(records) && EventBounded(records, id)
    ensures ValidEvent(EventOf(records, id, source, target).(candidate := candidate, rejections := Ordered(rejections)))
  {
    hide Ids, Count, OfKind, Avcs, Proctitles, SyscallsOf, Ordered, PidConsistent, Canonical;
    EventSizes(records, id, source, target);
    ComponentsFit(records, id);
    CountedOnce(records, id);
    OrderedKeepsFacts(rejections);
    PidsConsistent(OfKind(records, id, Avc), source, target);
    PidsConsistent(OfKind(records, id, Syscall), source, target);
  }

  lemma {:induction false} DecidedPointwise(events: seq<Event>, schema: int)
    ensures var decided := DecidedEvents(events, schema);
      && |decided| == |events|
      && (forall i :: 0 <= i < |events| ==>
            decided[i] == events[i].(candidate := IsCandidate(events[i], schema),
                                     rejections := Ordered(EventFacts(events[i], schema))))
      && TotalRecords(decided) == TotalRecords(events) && TotalAvcs(decided) == TotalAvcs(events)
  {
    hide IsCandidate, EventFacts, Ordered;
    if events != [] {
      DecidedPointwise(events[..|events| - 1], schema);
      var decided := DecidedEvents(events, schema);
      assert decided[..|decided| - 1] == DecidedEvents(events[..|events| - 1], schema);
    }
  }

  /** Every records-observed document within the size bound passes validation. */
  lemma ObservedAccepted(records: seq<Record>, source: string, target: string, attempt: int, bytes: nat, size: nat)
    requires Scan(records).None? && 1 <= attempt <= 12 && bytes <= MAX_AUDIT_OBSERVATION_BYTES
    requires size <= MAX_AVC_DIAGNOSTIC_BYTES
    ensures Accepted(Observed(records, source, target, attempt, bytes), size)
  {
    var built := Built(records, source, target, attempt, bytes);
    FinalizeIdempotent(built);
    ScanPasses(records);
    TotalsExact(records, source, target);
    DecidedPointwise(built.events, SCHEMA);
    RejectionsCanonical(built);
    forall i | 0 <= i < |built.events| ensures ValidEvent(Finalized(built).events[i]) {
      var e := built.events[i];
      ProjectedEventValid(records, Ids(records)[i], EventFacts(e, SCHEMA), IsCandidate(e, SCHEMA), source, target);
    }
  }

  lemma RejectionsCanonical(d: Diagnostic)
    ensures Canonical(Finalized(d).rejections)
  {
    hide GlobalFacts, Ordered, AnyAmbiguous, CandidateCount;
    OrderedKeepsFacts(GlobalFacts(d));
    OrderedKeepsFacts({});
    NothingOrdered();
  }

  lemma NothingOrdered()
    ensures Ordered({}) == []
  {
    PickNothing(FACTS, {});
  }

  /** A document whose reading stopped early is only accepted when no denial record came first. */
  lemma UnreadAccepted(records: seq<Record>, k: nat, fact: Fact, attempt: int, bytes: nat, size: nat)
    requires Scan(records) == Some((k, Unreadable(fact))) && 1 <= attempt <= 12
    requires bytes <= MAX_AUDIT_OBSERVATION_BYTES && size <= MAX_AVC_DIAGNOSTIC_BYTES
    ensures Accepted(Unread(records, k, fact, attempt, bytes), size) <==>
            forall i :: 0 <= i < k ==> records[i].kind != Some(Avc)
  {
    AvcCountZero(records[..k]);
    UnreadableFacts(records);
    PairCanonical(fact);
  }

  lemma {:induction false} AvcCountZero(records: seq<Record>)
    ensures AvcCount(records) == 0 <==> forall i :: 0 <= i < |records| ==> records[i].kind != Some(Avc)
  {
    if records != [] {
      AvcCountZero(records[..|records| - 1]);
    }
  }

  lemma {:induction false} UnreadableFacts(records: seq<Record>)
    ensures Scan(records).Some? && Scan(records).value.1.Unreadable? ==>
            Scan(records).value.1.fact in {RecordRepresentationMalformed, EventIdParseMismatch}
  {
    if records != [] {
      UnreadableFacts(records[..|records| - 1]);
    }
  }

  lemma {:induction false} PickConcat(a: seq<Fact>, b: seq<Fact>, facts: set<Fact>)
    ensures Pick(a + b, facts) == Pick(a, facts) + Pick(b, facts)
  {
    if a == [] {
      assert a + b == b;
    } else {
      assert (a + b)[1..] == a[1..] + b;
      PickConcat(a[1..], b, facts);
    }
  }

  function One(f: Fact, facts: set<Fact>): seq<Fact> {
    if f in facts then [f] else []
  }

  lemma PickTwo(a: Fact, b: Fact, facts: set<Fact>)
    ensures Pick([a, b], facts) == One(a, facts) + One(b, facts)
  {
    assert [b][1..] == [] && Pick([b], facts) == One(b, facts);
    assert [a, b][1..] == [b];
  }

  lemma PickFour(a: seq<Fact>, b: seq<Fact>, c: seq<Fact>, d: seq<Fact>, facts: set<Fact>)
    ensures Pick(a + b + c + d, facts) == Pick(a, facts) + Pick(b, facts) + Pick(c, facts) + Pick(d, facts)
  {
    hide Pick;
    PickConcat(a + b + c, d, facts);
    PickConcat(a + b, c, facts);
    PickConcat(a, b, facts);
  }

  lemma OrderedLast(facts: set<Fact>)
    requires forall f :: f in facts ==> f !in AVC_FACTS && f !in EVENT_FACTS
    ensures Ordered(facts) == Pick(OBSERVATION_FACTS, facts)
  {
    hide Pick;
    PickConcat(AVC_FACTS + EVENT_FACTS, OBSERVATION_FACTS, facts);
    PickConcat(AVC_FACTS, EVENT_FACTS, facts);
    PickNothing(AVC_FACTS, facts);
    PickNothing(EVENT_FACTS, facts);
  }

  lemma PickObservation(facts: set<Fact>)
    requires AusearchNoResult !in facts && CaptureExecutionError !in facts
    requires CrossEventSeparation !in facts && MultipleCandidateEvents !in facts
    ensures Pick(OBSERVATION_FACTS, facts) == One(EventIdParseMismatch, facts) + One(RecordRepresentationMalformed, facts)
                                              + (One(ObservationMalformed, facts) + One(ObservationOversized, facts))
  {
    hide Pick;
    PickFour([EventIdParseMismatch, RecordRepresentationMalformed], [CrossEventSeparation, MultipleCandidateEvents],
             [ObservationMalformed, ObservationOversized], [AusearchNoResult, CaptureExecutionError], facts);
    PickTwo(EventIdParseMismatch, RecordRepresentationMalformed, facts);
    PickTwo(CrossEventSeparation, MultipleCandidateEvents, facts);
    PickTwo(ObservationMalformed, ObservationOversized, facts);
    PickTwo(AusearchNoResult, CaptureExecutionError, facts);
    assert OBSERVATION_FACTS == [EventIdParseMismatch, RecordRepresentationMalformed]
                                + [CrossEventSeparation, MultipleCandidateEvents]
                                + [ObservationMalformed, ObservationOversized] + [AusearchNoResult, CaptureExecutionError];
  }

  lemma {:induction false} PickNothing(order: seq<Fact>, facts: set<Fact>)
    requires forall f :: f in facts ==> f !in order
    ensures Pick(order, facts) == []
  {
    if order != [] {
      PickNothing(order[1..], facts);
    }
  }

  lemma NoDenialFact(f: Fact)
    requires f in {EventIdParseMismatch, RecordRepresentationMalformed, ObservationMalformed, ObservationOversized}
    ensures f !in AVC_FACTS && f !in EVENT_FACTS
  {
  }

  /** The reasons a capture without records gives are in their canonical order. */
  lemma PairCanonical(fact: Fact)
    requires fact in {EventIdParseMismatch, RecordRepresentationMalformed}
    ensures Canonical([fact, ObservationMalformed])
  {
    hide Pick, FactsIn;
    var facts := {fact, ObservationMalformed};
    NoDenialFact(fact);
    NoDenialFact(ObservationMalformed);
    OrderedLast(facts);
    PickObservation(facts);
    assert FactsIn([fact, ObservationMalformed]) == facts;
  }

  lemma SingleCanonical(fact: Fact)
    requires fact in {ObservationMalformed, ObservationOversized}
    ensures Canonical([fact])
  {
    hide Pick, FactsIn;
    NoDenialFact(fact);
    OrderedLast({fact});
    PickObservation({fact});
    assert FactsIn([fact]) == {fact};
  }

  lemma PickLastTwo(facts: set<Fact>)
    requires facts <= {NoAvcRecordsObserved, AusearchNoResult, CaptureExecutionError}
    ensures Pick(OBSERVATION_FACTS, facts) == One(AusearchNoResult, facts) + One(CaptureExecutionError, facts)
  {
    hide Pick;
    PickFour([EventIdParseMismatch, RecordRepresentationMalformed], [CrossEventSeparation, MultipleCandidateEvents],
             [ObservationMalformed, ObservationOversized], [AusearchNoResult, CaptureExecutionError], facts);
    PickTwo(EventIdParseMismatch, RecordRepresentationMalformed, facts);
    PickTwo(CrossEventSeparation, MultipleCandidateEvents, facts);
    PickTwo(ObservationMalformed, ObservationOversized, facts);
    PickTwo(AusearchNoResult, CaptureExecutionError, facts);
    assert OBSERVATION_FACTS == [EventIdParseMismatch, RecordRepresentationMalformed]
                                + [CrossEventSeparation, MultipleCandidateEvents]
                                + [ObservationMalformed, ObservationOversized] + [AusearchNoResult, CaptureExecutionError];
  }

  /** Of the first facts in the order these are only the first one. */
  lemma PickFirst(facts: set<Fact>)
    requires facts <= {NoAvcRecordsObserved, AusearchNoResult, CaptureExecutionError}
    ensures Pick(AVC_FACTS, facts) == One(NoAvcRecordsObserved, facts) && Pick(EVENT_FACTS, facts) == []
  {
    var rest := AVC_FACTS[1..];
    assert AVC_FACTS == [NoAvcRecordsObserved] + rest;
    assert forall f :: f in facts && f in rest ==> false;
    PickNothing(rest, facts);
    PickNothing(EVENT_FACTS, facts);
  }

  lemma StatusCanonical()
    ensures Canonical([NoAvcRecordsObserved, AusearchNoResult]) && Canonical([CaptureExecutionError])
  {
    hide Pick;
    forall facts: set<Fact> | facts <= {NoAvcRecordsObserved, AusearchNoResult, CaptureExecutionError}
      ensures Ordered(facts) ==
              One(NoAvcRecordsObserved, facts) + One(AusearchNoResult, facts) + One(CaptureExecutionError, facts)
    {
      PickConcat(AVC_FACTS + EVENT_FACTS, OBSERVATION_FACTS, facts);
      PickConcat(AVC_FACTS, EVENT_FACTS, facts);
      PickFirst(facts);
      PickLastTwo(facts);
    }
    assert Ordered(FactsIn([CaptureExecutionError])) == [CaptureExecutionError];
    assert Ordered(FactsIn([NoAvcRecordsObserved, AusearchNoResult])) == [NoAvcRecordsObserved, AusearchNoResult];
  }

  /** Captures without records are accepted exactly for what they are: the two search statuses are never mixed up. */
  lemma CapturedAccepted(attempt: int, bytes: nat, outcome: Capture, ausearch: Option<int>, status: Option<int>, size: nat)
    requires !outcome.RecordsObserved?
    ensures Accepted(Captured(attempt, bytes, outcome, ausearch, status), size) <==>
      && 1 <= attempt <= 12 && bytes <= MAX_AUDIT_OBSERVATION_BYTES + 1 && size <= MAX_AVC_DIAGNOSTIC_BYTES
      && ValidStatus(ausearch) && ValidStatus(status)
      && (outcome.NoResult? ==> ausearch == Some(1) && status == Some(0) && bytes == 0)
      && (outcome.ExecutionError? ==> !(ausearch == Some(1) && status == Some(0)))
  {
    StatusCanonical();
    SingleCanonical(ObservationOversized);
    SingleCanonical(ObservationMalformed);
    hide Canonical;
  }

  /** The diagnostic of any observation is admitted exactly under these conditions. */
  lemma DiagnosisAdmitted(payload: Payload, source: string, target: string, attempt: int, size: Diagnostic -> nat)
    ensures Diagnosis(payload, source, target, attempt, size).correlation.Admitted? <==>
            && payload.bytes <= MAX_AUDIT_OBSERVATION_BYTES && payload.text.Some?
            && var records := Records(payload.text.value);
            && Strict.AllWellFormed(records) && Bounded(records)
            && size(Observed(records, source, target, attempt, payload.bytes)) <= MAX_AVC_DIAGNOSTIC_BYTES
            && (exists d :: Strict.Unique(records, source, target, d)) && !Stray(records, source, target)
  {
    hide Ids, EventOf, Finalized, Stray, Strict.Unique, Bounded, Strict.AllWellFormed, Observed, Records;
    if payload.text.Some? {
      var records := Records(payload.text.value);
      ScanPasses(records);
      if Strict.AllWellFormed(records) {
        Agreement(records, source, target, attempt, payload.bytes);
      }
    }
  }

  /** The smallest observation whose diagnostic is refused: a denial record, then a line that is no record. */
  lemma MalformedAfterDenial(denial: Record, unreadable: Record, size: nat)
    requires denial.kind == Some(Avc) && denial.identity == Some(Identity("01/01/26 00:00:00.000", "1"))
    requires unreadable.kind.None? && size <= MAX_AVC_DIAGNOSTIC_BYTES
    ensures Scan([denial, unreadable]) == Some((1, Unreadable(RecordRepresentationMalformed)))
    ensures !Accepted(Unread([denial, unreadable], 1, RecordRepresentationMalformed, 1, 0), size)
  {
    hide Ids, Count, OfKind, Accepted, Unread, Scan;
    var records := [denial, unreadable];
    var none: seq<Record> := [];
    NothingRead(denial);
    ScanStops(none, denial);
    assert none + [denial] == [denial] && [denial] + [unreadable] == records;
    ScanStops([denial], unreadable);
    UnreadAccepted(records, 1, RecordRepresentationMalformed, 1, 0, size);
    assert records[0].kind == Some(Avc);
  }

  lemma NothingRead(r: Record)
    requires r.kind == Some(Avc) && r.identity == Some(Identity("01/01/26 00:00:00.000", "1"))
    ensures Scan([]).None? && StopAt([], r).None?
  {
  }
}
