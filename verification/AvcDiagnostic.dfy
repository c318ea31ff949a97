/**
  The closed diagnostic document: finalising its decision and validating it independently
  (scripts/selinux_isolation_contract.py).
 */
module AvcDiagnostic {
  import opened Common
  import opened AuditRecords
  import opened AvcDecision

  datatype Capture = RecordsObserved | NoResult | ExecutionError | Malformed | Oversized

  datatype Correlation = Admitted | NoMatch | Invalid

  datatype Diagnostic = Diagnostic(schema: int, capture: Capture, correlation: Correlation, attempt: int,
                                   ausearch: Option<int>, status: Option<int>, bytes: nat, recordCount: nat,
                                   eventCount: nat, avcRecordCount: nat, candidateEventCount: nat,
                                   events: seq<Event>, rejections: seq<Fact>)

  // ---------- Finalising ----------

  function DecidedEvents(events: seq<Event>, schema: int): seq<Event> {
    if events == [] then []
    else
      var e := events[|events| - 1];
      DecidedEvents(events[..|events| - 1], schema) +
      [e.(candidate := IsCandidate(e, schema), rejections := Ordered(EventFacts(e, schema)))]
  }

  function CandidateCount(events: seq<Event>, schema: int): nat {
    if events == [] then 0
    else CandidateCount(events[..|events| - 1], schema) + if IsCandidate(events[|events| - 1], schema) then 1 else 0
  }

  /** Facts of the events that hold a denial at all. */
  function DenialEventFacts(events: seq<Event>, schema: int): set<Fact> {
    if events == [] then {}
    else
      var e := events[|events| - 1];
      DenialEventFacts(events[..|events| - 1], schema) + if e.avcs != [] then EventFacts(e, schema) else {}
  }

  function CommandPids(syscalls: seq<SyscallFacts>): set<nat> {
    set s | s in syscalls && s.pid.status.ValidPid? && s.command && s.pid.pid.Some? :: s.pid.pid.value
  }

  /** Who denied what where: (event, pid) of exact denials, events with the title, (event, pid) of the command. */
  datatype Sightings = Sightings(denials: set<(Identity, nat)>, titles: set<Identity>, commands: set<(Identity, nat)>)

  function SightingsOf(events: seq<Event>, schema: int): Sightings {
    if events == [] then Sightings({}, {}, {})
    else Seen(SightingsOf(events[..|events| - 1], schema), events[|events| - 1], schema)
  }

  function Seen(before: Sightings, e: Event, schema: int): Sightings {
    Sightings(before.denials + set pid | pid in CandidatePids(e.avcs, schema) :: (e.identity, pid),
              before.titles + if Titles(e.proctitles) > 0 then {e.identity} else {},
              before.commands + set pid | pid in CommandPids(e.syscalls) :: (e.identity, pid))
  }

  /** A denial, the title and a call of the same pid exist, but not all in one event. */
  predicate Separated(s: Sightings) {
    exists a, t, c | a in s.denials && t in s.titles && c in s.commands ::
      c.1 == a.1 && !(a.0 == t && t == c.0)
  }

  predicate Ambiguous(e: Event, schema: int) {
    var facts := EventFacts(e, schema);
    AvcDuplicate in facts || ProctitleDuplicate in facts || SyscallDuplicate in facts
  }

  predicate AnyAmbiguous(events: seq<Event>, schema: int) {
    exists e :: e in events && Ambiguous(e, schema)
  }

  function GlobalFacts(d: Diagnostic): set<Fact> {
    var count := CandidateCount(d.events, d.schema);
    DenialEventFacts(d.events, d.schema) + If(d.avcRecordCount == 0, NoAvcRecordsObserved)
    + If(count > 1, MultipleCandidateEvents)
    + If(count == 0 && Separated(SightingsOf(d.events, d.schema)), CrossEventSeparation)
  }

  function Finalized(d: Diagnostic): Diagnostic {
    var count := CandidateCount(d.events, d.schema);
    var ambiguous := AnyAmbiguous(d.events, d.schema);
    d.(events := DecidedEvents(d.events, d.schema), candidateEventCount := count,
       correlation := if count == 1 && !ambiguous then Admitted else if count > 1 || ambiguous then Invalid else NoMatch,
       rejections := if count == 1 && !ambiguous then [] else Ordered(GlobalFacts(d)))
  }

  method FindCommandPids(syscalls: seq<SyscallFacts>) returns (pids: set<nat>)
    ensures pids == CommandPids(syscalls)
  {
    pids := {};
    for i := 0 to |syscalls|
      invariant pids == CommandPids(syscalls[..i])
    {
      assert syscalls[..i + 1] == syscalls[..i] + [syscalls[i]];
      var p := syscalls[i].pid;
      if p.status.ValidPid? && syscalls[i].command && p.pid.Some? {
        pids := pids + {p.pid.value};
      }
    }
    assert syscalls[..|syscalls|] == syscalls;
  }

  lemma AmbiguousByFacts(e: Event, schema: int)
    ensures Ambiguous(e, schema) <==>
            || AvcDuplicate in EventFacts(e, schema) || ProctitleDuplicate in EventFacts(e, schema)
            || SyscallDuplicate in EventFacts(e, schema)
  {
  }

  lemma NoneAmbiguous(schema: int)
    ensures !AnyAmbiguous([], schema)
  {
  }

  lemma AnyAmbiguousExtends(events: seq<Event>, e: Event, schema: int)
    ensures AnyAmbiguous(events + [e], schema) <==> AnyAmbiguous(events, schema) || Ambiguous(e, schema)
  {
    hide Ambiguous;
    assert e in events + [e];
  }

  /** The loop over all events: each is decided, and what it shows is remembered. */
  method DecideAll(d: Diagnostic)
    returns (events: seq<Event>, facts: set<Fact>, count: nat, ambiguous: bool, seen: Sightings)
    ensures events == DecidedEvents(d.events, d.schema) && count == CandidateCount(d.events, d.schema)
    ensures facts == DenialEventFacts(d.events, d.schema) && seen == SightingsOf(d.events, d.schema)
    ensures ambiguous <==> AnyAmbiguous(d.events, d.schema)
  {
    hide IsCandidate, EventFacts, CandidatePids, CommandPids, Titles, Ordered, Ambiguous, AnyAmbiguous;
    NoneAmbiguous(d.schema);
    events, facts, count, ambiguous, seen := [], {}, 0, false, Sightings({}, {}, {});
    for i := 0 to |d.events|
      invariant events == DecidedEvents(d.events[..i], d.schema) && count == CandidateCount(d.events[..i], d.schema)
      invariant facts == DenialEventFacts(d.events[..i], d.schema)
      invariant seen == SightingsOf(d.events[..i], d.schema)
      invariant ambiguous <==> AnyAmbiguous(d.events[..i], d.schema)
    {
      var e := d.events[i];
      assert d.events[..i + 1][..i] == d.events[..i];
      assert d.events[..i + 1] == d.events[..i] + [e];
      AnyAmbiguousExtends(d.events[..i], e, d.schema);
      var decision := DecideEvent(e, d.schema);
      OrderedKeepsFacts(decision.facts);
      var rejections := Ordered(decision.facts);
      events := events + [e.(candidate := decision.candidate, rejections := rejections)];
      if e.avcs != [] {
        facts := facts + FactsIn(rejections);
      }
      if decision.candidate {
        count := count + 1;
      }
      var titles := CountTitles(e.proctitles);
      var commands := FindCommandPids(e.syscalls);
      seen := Sightings(seen.denials + set pid | pid in decision.pids :: (e.identity, pid),
                        seen.titles + if titles > 0 then {e.identity} else {},
                        seen.commands + set pid | pid in commands :: (e.identity, pid));
      if AvcDuplicate in rejections || ProctitleDuplicate in rejections || SyscallDuplicate in rejections {
        ambiguous := true;
      }
      assert Ambiguous(e, d.schema) <==>
             AvcDuplicate in rejections || ProctitleDuplicate in rejections || SyscallDuplicate in rejections by {
        AmbiguousByFacts(e, d.schema);
      }
    }
    assert d.events[..|d.events|] == d.events;
  }

  /** _finalize_record_diagnostic. */
  method Finalize(d: Diagnostic) returns (r: Diagnostic)
    ensures r == Finalized(d)
  {
    hide DecidedEvents, CandidateCount, DenialEventFacts, SightingsOf, AnyAmbiguous, Separated, Ordered;
    var events, facts, count, ambiguous, seen := DecideAll(d);
    if d.avcRecordCount == 0 {
      facts := facts + {NoAvcRecordsObserved};
    }
    if count > 1 {
      facts := facts + {MultipleCandidateEvents};
    }
    if count == 0 && Separated(seen) {
      facts := facts + {CrossEventSeparation};
    }
    assert facts == GlobalFacts(d);
    r := d.(events := events, candidateEventCount := count);
    if count == 1 && !ambiguous {
      r := r.(correlation := Admitted, rejections := []);
    } else if count > 1 || ambiguous {
      r := r.(correlation := Invalid, rejections := Ordered(facts));
    } else {
      r := r.(correlation := NoMatch, rejections := Ordered(facts));
    }
  }

  // ---------- The decision depends on the observations alone ----------

  function Bare(e: Event): Event {
    e.(candidate := false, rejections := [])
  }

  predicate SameObservations(es: seq<Event>, fs: seq<Event>) {
    |es| == |fs| && forall i :: 0 <= i < |es| ==> Bare(es[i]) == Bare(fs[i])
  }

  lemma SameDecision(e: Event, f: Event, schema: int)
    requires Bare(e) == Bare(f)
    ensures IsCandidate(e, schema) == IsCandidate(f, schema) && EventFacts(e, schema) == EventFacts(f, schema)
    ensures Ambiguous(e, schema) == Ambiguous(f, schema)
    ensures forall before :: Seen(before, e, schema) == Seen(before, f, schema)
  {
  }

  lemma {:induction false} SameDecisions(es: seq<Event>, fs: seq<Event>, schema: int)
    requires SameObservations(es, fs)
    ensures DecidedEvents(es, schema) == DecidedEvents(fs, schema)
    ensures CandidateCount(es, schema) == CandidateCount(fs, schema)
    ensures DenialEventFacts(es, schema) == DenialEventFacts(fs, schema)
    ensures SightingsOf(es, schema) == SightingsOf(fs, schema)
    decreases |es|
  {
    hide IsCandidate, EventFacts, Seen, Ordered, Ambiguous;
    if es != [] {
      SameDecisions(es[..|es| - 1], fs[..|fs| - 1], schema);
      SameDecision(es[|es| - 1], fs[|fs| - 1], schema);
      assert Bare(es[|es| - 1]) == Bare(fs[|fs| - 1]);
    }
  }

  lemma SameAmbiguity(es: seq<Event>, fs: seq<Event>, schema: int)
    requires SameObservations(es, fs)
    ensures AnyAmbiguous(es, schema) ==> AnyAmbiguous(fs, schema)
  {
    hide Ambiguous;
    if AnyAmbiguous(es, schema) {
      var i :| 0 <= i < |es| && Ambiguous(es[i], schema);
      SameDecision(es[i], fs[i], schema);
      assert fs[i] in fs;
    }
  }

  /** Two documents that differ only in their decisions finalise alike. */
  lemma FinalizedAlike(d: Diagnostic, e: Diagnostic)
    requires SameObservations(d.events, e.events)
    requires e == d.(events := e.events, candidateEventCount := e.candidateEventCount, correlation := e.correlation,
                     rejections := e.rejections)
    ensures Finalized(d) == Finalized(e)
  {
    hide DecidedEvents, CandidateCount, DenialEventFacts, SightingsOf, AnyAmbiguous, Separated, Ordered;
    SameDecisions(d.events, e.events, d.schema);
    SameAmbiguity(d.events, e.events, d.schema);
    SameAmbiguity(e.events, d.events, d.schema);
  }

  lemma {:induction false} DecidedKeepsObservations(events: seq<Event>, schema: int)
    ensures SameObservations(events, DecidedEvents(events, schema))
  {
    hide IsCandidate, EventFacts, Ordered;
    if events != [] {
      DecidedKeepsObservations(events[..|events| - 1], schema);
    }
  }

  /** Finalising twice changes nothing. */
  lemma FinalizeIdempotent(d: Diagnostic)
    ensures Finalized(Finalized(d)) == Finalized(d)
  {
    hide DecidedEvents, CandidateCount, GlobalFacts, AnyAmbiguous, Ordered;
    DecidedKeepsObservations(d.events, d.schema);
    FinalizedAlike(d, Finalized(d));
  }

  // ---------- Validating ----------

  predicate PidConsistent(p: PidFacts) {
    p.status.ValidPid? <==> p.pid.Some? && 1 <= p.pid.value <= MAX_PID
  }

  predicate ValidEvent(e: Event) {
    && |e.identity.serial| <= 64 && 1 <= e.recordCount <= MAX_EVENT_RECORDS && Canonical(e.rejections)
    && |e.avcs| <= MAX_EVENT_COMPONENT_RECORDS && |e.proctitles| <= MAX_EVENT_COMPONENT_RECORDS
    && |e.syscalls| <= MAX_EVENT_COMPONENT_RECORDS
    && |e.avcs| + |e.proctitles| + |e.syscalls| <= e.recordCount
    && (forall a :: a in e.avcs ==> PidConsistent(a.pid))
    && (forall s :: s in e.syscalls ==> PidConsistent(s.pid))
  }

  function TotalRecords(events: seq<Event>): nat {
    if events == [] then 0 else TotalRecords(events[..|events| - 1]) + events[|events| - 1].recordCount
  }

  function TotalAvcs(events: seq<Event>): nat {
    if events == [] then 0 else TotalAvcs(events[..|events| - 1]) + |events[|events| - 1].avcs|
  }

  predicate DistinctIdentities(events: seq<Event>) {
    forall i, j :: 0 <= i < j < |events| ==> events[i].identity != events[j].identity
  }

  predicate ValidStatus(status: Option<int>) {
    status.Some? ==> 0 <= status.value <= 255
  }

  predicate ClosedFacts(d: Diagnostic, size: nat) {
    && size <= MAX_AVC_DIAGNOSTIC_BYTES && d.schema in {1, 2} && 1 <= d.attempt <= 12
    && ValidStatus(d.ausearch) && ValidStatus(d.status) && d.bytes <= MAX_AUDIT_OBSERVATION_BYTES + 1
    && |d.events| <= MAX_AUDIT_EVENTS && Canonical(d.rejections)
  }

  /** Nothing was observed, so nothing may be claimed beyond the reason. */
  predicate NonRecordValid(d: Diagnostic) {
    && d.events == [] && d.eventCount == 0 && d.avcRecordCount == 0 && d.candidateEventCount == 0
    && (!d.capture.Malformed? ==> d.recordCount == 0)
    && match d.capture
       case NoResult =>
         && d.ausearch == Some(1) && d.status == Some(0) && d.bytes == 0
         && d.correlation.NoMatch? && d.rejections == [NoAvcRecordsObserved, AusearchNoResult]
       case ExecutionError =>
         && !(d.ausearch == Some(1) && d.status == Some(0))
         && d.correlation.Invalid? && d.rejections == [CaptureExecutionError]
       case Oversized => d.correlation.Invalid? && d.rejections == [ObservationOversized]
       case _ =>
         && d.correlation.Invalid?
         && d.rejections in {[ObservationMalformed], [EventIdParseMismatch, ObservationMalformed],
                             [RecordRepresentationMalformed, ObservationMalformed]}
  }

  predicate RecordsValid(d: Diagnostic) {
    && d.ausearch == Some(0) && d.status == Some(0) && d.bytes <= MAX_AUDIT_OBSERVATION_BYTES
    && d.recordCount <= MAX_AUDIT_RECORDS && d.eventCount == |d.events|
    && (forall e :: e in d.events ==> ValidEvent(e)) && DistinctIdentities(d.events)
    && TotalRecords(d.events) == d.recordCount && TotalAvcs(d.events) == d.avcRecordCount
  }

  /** What the validator accepts. */
  predicate Accepted(d: Diagnostic, size: nat) {
    && ClosedFacts(d, size)
    && if d.capture.RecordsObserved? then RecordsValid(d) && Finalized(d) == d else NonRecordValid(d)
  }

  method ScanEvents(events: seq<Event>) returns (ok: bool, records: nat, avcs: nat)
    ensures ok <==> (forall e :: e in events ==> ValidEvent(e)) && DistinctIdentities(events)
    ensures ok ==> records == TotalRecords(events) && avcs == TotalAvcs(events)
  {
    hide ValidEvent;
    records, avcs := 0, 0;
    var identities: set<Identity> := {};
    for i := 0 to |events|
      invariant forall k :: 0 <= k < i ==> ValidEvent(events[k])
      invariant DistinctIdentities(events[..i])
      invariant forall id :: id in identities <==> exists k :: 0 <= k < i && events[k].identity == id
      invariant records == TotalRecords(events[..i]) && avcs == TotalAvcs(events[..i])
    {
      assert events[..i + 1][..i] == events[..i];
      if !ValidEvent(events[i]) || events[i].identity in identities {
        return false, 0, 0;
      }
      identities := identities + {events[i].identity};
      records, avcs := records + events[i].recordCount, avcs + |events[i].avcs|;
    }
    assert events[..|events|] == events;
    ok := true;
  }

  /** validate_avc_correlation_diagnostic: `size` is the length of the canonical document. */
  method Validate(d: Diagnostic, size: nat) returns (ok: bool)
    ensures ok <==> Accepted(d, size)
  {
    hide Finalized, Canonical, ValidEvent, DistinctIdentities;
    if !ClosedFacts(d, size) {
      return false;
    }
    if !d.capture.RecordsObserved? {
      return NonRecordValid(d);
    }
    if !(d.ausearch == Some(0) && d.status == Some(0) && d.bytes <= MAX_AUDIT_OBSERVATION_BYTES
         && d.recordCount <= MAX_AUDIT_RECORDS && d.eventCount == |d.events|) {
      return false;
    }
    var valid, records, avcs := ScanEvents(d.events);
    if !valid || records != d.recordCount || avcs != d.avcRecordCount {
      return false;
    }
    var undecided := d.(events := seq(|d.events|, i requires 0 <= i < |d.events| => Bare(d.events[i])),
                        candidateEventCount := 0, rejections := []);
    FinalizedAlike(d, undecided);
    var recomputed := Finalize(undecided);
    Recomputed(d);
    ok := d.correlation == recomputed.correlation && d.candidateEventCount == recomputed.candidateEventCount
          && d.rejections == recomputed.rejections && d.events == recomputed.events;
  }

  lemma Recomputed(d: Diagnostic)
    ensures Finalized(d) == d.(correlation := Finalized(d).correlation, events := Finalized(d).events,
                               candidateEventCount := Finalized(d).candidateEventCount,
                               rejections := Finalized(d).rejections)
  {
  }
}
