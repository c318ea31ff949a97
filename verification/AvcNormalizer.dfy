/**
  The strict reading of an audit observation: the one enforcing denial it proves, or a refusal
  (scripts/selinux_isolation_contract.py, normalize_unique_enforcing_avc).
 */
module AvcNormalizer {
  import opened Common
  import opened AuditRecords

  /** An event's records, grouped by the three types that are looked at. */
  datatype Components = Components(avc: seq<Record>, proctitle: seq<Record>, syscall: seq<Record>)

  function ComponentsOf(records: seq<Record>, id: Identity): Components {
    Components(OfKind(records, id, Avc), OfKind(records, id, Proctitle), OfKind(records, id, Syscall))
  }

  function StrictPids(avcs: seq<Record>, source: string, target: string): seq<nat> {
    if avcs == [] then []
    else
      var pid := AvcPid(avcs[|avcs| - 1], source, target);
      StrictPids(avcs[..|avcs| - 1], source, target) + if pid.Some? then [pid.value] else []
  }

  function StrictTitles(proctitles: seq<Record>): nat {
    if proctitles == [] then 0
    else StrictTitles(proctitles[..|proctitles| - 1]) + if TitleMatches(proctitles[|proctitles| - 1]) then 1 else 0
  }

  function StrictSyscalls(syscalls: seq<Record>, pid: nat): nat {
    if syscalls == [] then 0
    else StrictSyscalls(syscalls[..|syscalls| - 1], pid) + if SyscallMatches(syscalls[|syscalls| - 1], pid) then 1 else 0
  }

  datatype Reading = Duplicated | Candidate(pid: nat) | NoCandidate

  /** What one event says. */
  function Read(c: Components, source: string, target: string): Reading {
    var pids, titles := StrictPids(c.avc, source, target), StrictTitles(c.proctitle);
    var syscalls := if |pids| == 1 then StrictSyscalls(c.syscall, pids[0]) else 0;
    if |pids| > 1 || titles > 1 || syscalls > 1 then Duplicated
    else if |pids| == 1 && titles == 1 && syscalls == 1 then Candidate(pids[0])
    else NoCandidate
  }

  function ReadEvent(records: seq<Record>, id: Identity, source: string, target: string): Reading {
    Read(ComponentsOf(records, id), source, target)
  }

  datatype Denial = Denial(event: Identity, pid: nat)

  datatype Inadmissible = NoMatchingAvc | IsolationError

  predicate AllWellFormed(records: seq<Record>) {
    forall r :: r in records ==> WellFormed(r)
  }

  predicate NoneDuplicated(records: seq<Record>, source: string, target: string) {
    forall id :: id in Ids(records) ==> !ReadEvent(records, id, source, target).Duplicated?
  }

  /** `d` is the only event of the observation that proves a denial. */
  predicate Unique(records: seq<Record>, source: string, target: string, d: Denial) {
    && AllWellFormed(records) && NoneDuplicated(records, source, target)
    && d.event in Ids(records) && ReadEvent(records, d.event, source, target) == Candidate(d.pid)
    && (forall id :: id in Ids(records) && id != d.event ==> !ReadEvent(records, id, source, target).Candidate?)
  }

  type Events = map<Identity, Components>

  /** The dictionary built from `records`, with its keys in insertion order. */
  ghost predicate Grouped(records: seq<Record>, order: seq<Identity>, events: Events) {
    && order == Ids(records)
    && (forall id :: id in order <==> id in events)
    && (forall id :: id in order ==> events[id] == ComponentsOf(records, id))
  }

  function Added(c: Components, r: Record): Components {
    match r.kind
    case Some(Avc) => c.(avc := c.avc + [r])
    case Some(Proctitle) => c.(proctitle := c.proctitle + [r])
    case Some(Syscall) => c.(syscall := c.syscall + [r])
    case _ => c
  }

  /** One kind of one event's records. */
  lemma KindAppended(records: seq<Record>, r: Record, id: Identity, kind: Kind)
    ensures OfKind(records + [r], id, kind) ==
            if Of(r, id) && r.kind == Some(kind) then OfKind(records, id, kind) + [r] else OfKind(records, id, kind)
  {
    assert (records + [r])[..|records|] == records;
  }

  lemma ComponentsAppended(records: seq<Record>, r: Record, id: Identity)
    ensures ComponentsOf(records + [r], id) ==
            if Of(r, id) then Added(ComponentsOf(records, id), r) else ComponentsOf(records, id)
  {
    hide OfKind, Of;
    KindAppended(records, r, id, Avc);
    KindAppended(records, r, id, Proctitle);
    KindAppended(records, r, id, Syscall);
  }

  lemma IdsAppended(records: seq<Record>, r: Record)
    requires WellFormed(r)
    ensures Ids(records + [r]) ==
            if r.identity.value in Ids(records) then Ids(records) else Ids(records) + [r.identity.value]
  {
    Appended(records, r, r.identity.value);
  }

  lemma GroupedExtends(records: seq<Record>, r: Record, order: seq<Identity>, events: Events)
    requires Grouped(records, order, events) && WellFormed(r)
    ensures var id := r.identity.value;
            if id in events then Grouped(records + [r], order, events[id := Added(events[id], r)])
            else Grouped(records + [r], order + [id], events[id := Added(Components([], [], []), r)])
  {
    hide Ids, ComponentsOf, Added;
    var id := r.identity.value;
    IdsAppended(records, r);
    forall other ensures ComponentsOf(records + [r], other) ==
      if other == id then Added(ComponentsOf(records, other), r) else ComponentsOf(records, other)
    {
      ComponentsAppended(records, r, other);
    }
    if id !in events {
      NothingSeen(records, id);
    }
  }

  lemma NothingSeen(records: seq<Record>, id: Identity)
    requires id !in Ids(records)
    ensures ComponentsOf(records, id) == Components([], [], [])
  {
    Unseen(records, id);
  }

  /** setdefault: the event's components, started empty when it is new. */
  method Append(order: seq<Identity>, events: Events, r: Record, ghost records: seq<Record>)
    returns (order': seq<Identity>, events': Events)
    requires Grouped(records, order, events) && WellFormed(r)
    ensures Grouped(records + [r], order', events')
  {
    hide Grouped, Added;
    GroupedExtends(records, r, order, events);
    var id := r.identity.value;
    if id in events {
      order', events' := order, events[id := Added(events[id], r)];
    } else {
      order', events' := order + [id], events[id := Added(Components([], [], []), r)];
    }
  }

  method Group(lines: seq<Line>) returns (r: Result<(seq<Identity>, Events), ()>)
    ensures r.Success? <==> AllWellFormed(Records(lines))
    ensures r.Success? ==> Grouped(Records(lines), r.value.0, r.value.1)
  {
    hide Grouped, Records, Ids;
    var order: seq<Identity>, events: Events := [], map[];
    NothingGrouped(lines);
    for i := 0 to |lines|
      invariant AllWellFormed(Records(lines[..i])) && Grouped(Records(lines[..i]), order, events)
    {
      RecordsAppended(lines[..i], lines[i]);
      assert lines[..i + 1] == lines[..i] + [lines[i]];
      if lines[i].Some? {
        if !WellFormed(lines[i].value) {
          RecordsKept(lines, i + 1);
          assert lines[i].value in Records(lines[..i + 1]);
          return Failure(());
        }
        order, events := Append(order, events, lines[i].value, Records(lines[..i]));
      } else {
        assert Records(lines[..i + 1]) == Records(lines[..i]);
      }
    }
    assert lines[..|lines|] == lines;
    r := Success((order, events));
  }

  lemma NothingGrouped(lines: seq<Line>)
    ensures Records(lines[..0]) == [] && Grouped([], [], map[])
  {
  }

  lemma {:induction false} RecordsKept(lines: seq<Line>, i: nat)
    requires i <= |lines|
    ensures Records(lines[..i]) <= Records(lines)
    decreases |lines| - i
  {
    if i == |lines| {
      assert lines[..i] == lines;
    } else {
      assert lines[..i + 1] == lines[..i] + [lines[i]];
      RecordsAppended(lines[..i], lines[i]);
      RecordsKept(lines, i + 1);
    }
  }

  method ReadComponents(c: Components, source: string, target: string) returns (reading: Reading)
    ensures reading == Read(c, source, target)
  {
    hide AvcPid, TitleMatches, SyscallMatches;
    var pids: seq<nat> := [];
    for i := 0 to |c.avc|
      invariant pids == StrictPids(c.avc[..i], source, target)
    {
      assert c.avc[..i + 1][..i] == c.avc[..i];
      var pid := AvcPid(c.avc[i], source, target);
      if pid.Some? {
        pids := pids + [pid.value];
      }
    }
    var titles := 0;
    for i := 0 to |c.proctitle|
      invariant titles == StrictTitles(c.proctitle[..i])
    {
      assert c.proctitle[..i + 1][..i] == c.proctitle[..i];
      if TitleMatches(c.proctitle[i]) {
        titles := titles + 1;
      }
    }
    var syscalls := 0;
    if |pids| == 1 {
      for i := 0 to |c.syscall|
        invariant syscalls == StrictSyscalls(c.syscall[..i], pids[0])
      {
        assert c.syscall[..i + 1][..i] == c.syscall[..i];
        if SyscallMatches(c.syscall[i], pids[0]) {
          syscalls := syscalls + 1;
        }
      }
    }
    assert c.avc[..|c.avc|] == c.avc && c.proctitle[..|c.proctitle|] == c.proctitle
           && c.syscall[..|c.syscall|] == c.syscall;
    reading := if |pids| > 1 || titles > 1 || syscalls > 1 then Duplicated
               else if |pids| == 1 && titles == 1 && syscalls == 1 then Candidate(pids[0])
               else NoCandidate;
  }

  /** The events that prove a denial, in order. */
  function Candidates(ids: seq<Identity>, records: seq<Record>, source: string, target: string): seq<Denial> {
    if ids == [] then []
    else
      var last := ids[|ids| - 1];
      var reading := ReadEvent(records, last, source, target);
      Candidates(ids[..|ids| - 1], records, source, target) + if reading.Candidate? then [Denial(last, reading.pid)] else []
  }

  predicate Proves(records: seq<Record>, source: string, target: string, d: Denial) {
    ReadEvent(records, d.event, source, target) == Candidate(d.pid)
  }

  lemma {:induction false} CandidatesExact(ids: seq<Identity>, records: seq<Record>, source: string, target: string)
    requires forall i, j :: 0 <= i < j < |ids| ==> ids[i] != ids[j]
    ensures var all := Candidates(ids, records, source, target);
      && (forall d :: d in all <==> d.event in ids && Proves(records, source, target, d))
      && (forall i, j :: 0 <= i < j < |all| ==> all[i].event != all[j].event)
  {
    hide ReadEvent;
    if ids != [] {
      assert ids == ids[..|ids| - 1] + [ids[|ids| - 1]];
      CandidatesExact(ids[..|ids| - 1], records, source, target);
    }
  }

  method Collect(order: seq<Identity>, events: Events, source: string, target: string, ghost records: seq<Record>)
    returns (r: Result<seq<Denial>, ()>)
    requires Grouped(records, order, events)
    ensures r.Success? <==> NoneDuplicated(records, source, target)
    ensures r.Success? ==> r.value == Candidates(order, records, source, target)
  {
    hide Records, Ids, Read, ComponentsOf;
    var candidates: seq<Denial> := [];
    for i := 0 to |order|
      invariant forall k :: 0 <= k < i ==> !ReadEvent(records, order[k], source, target).Duplicated?
      invariant candidates == Candidates(order[..i], records, source, target)
    {
      assert order[..i + 1][..i] == order[..i];
      var reading := ReadComponents(events[order[i]], source, target);
      assert reading == ReadEvent(records, order[i], source, target);
      if reading.Duplicated? {
        return Failure(());
      }
      if reading.Candidate? {
        candidates := candidates + [Denial(order[i], reading.pid)];
      }
    }
    assert order[..|order|] == order;
    r := Success(candidates);
  }

  /** Exactly which observations are admitted, and with which denial. */
  method Normalize(lines: seq<Line>, source: string, target: string) returns (r: Result<Denial, Inadmissible>)
    ensures forall d :: r == Success(d) <==> Unique(Records(lines), source, target, d)
    ensures r == Failure(NoMatchingAvc) <==>
      && AllWellFormed(Records(lines))
      && (forall id :: id in Ids(Records(lines)) ==> ReadEvent(Records(lines), id, source, target).NoCandidate?)
  {
    hide Records, Ids, ReadEvent, Candidates, AllWellFormed;
    var grouped := Group(lines);
    if grouped.Failure? {
      return Failure(IsolationError);
    }
    var (order, events) := grouped.value;
    var candidates := Collect(order, events, source, target, Records(lines));
    if candidates.Failure? {
      return Failure(IsolationError);
    }
    CandidatesDecide(Records(lines), source, target);
    r := if candidates.value == [] then Failure(NoMatchingAvc)
         else if |candidates.value| == 1 then Success(candidates.value[0])
         else Failure(IsolationError);
  }

  /** `all` lists what each event proves, once. */
  ghost predicate Proven(all: seq<Denial>, records: seq<Record>, source: string, target: string) {
    && (forall d :: d in all <==> d.event in Ids(records) && Proves(records, source, target, d))
    && (forall i, j :: 0 <= i < j < |all| ==> all[i].event != all[j].event)
  }

  lemma ProvenByEvent(all: seq<Denial>, records: seq<Record>, source: string, target: string, id: Identity)
    requires Proven(all, records, source, target) && id in Ids(records)
    requires ReadEvent(records, id, source, target).Candidate?
    ensures Denial(id, ReadEvent(records, id, source, target).pid) in all
  {
    hide Ids, ReadEvent;
    assert Proves(records, source, target, Denial(id, ReadEvent(records, id, source, target).pid));
  }

  lemma UniqueIsOnly(all: seq<Denial>, records: seq<Record>, source: string, target: string, d: Denial)
    requires Proven(all, records, source, target) && Unique(records, source, target, d)
    ensures all == [d]
  {
    hide Ids, ReadEvent, AllWellFormed, NoneDuplicated;
    assert d in all;
    forall i | 0 <= i < |all| ensures all[i] == d {
      assert all[i] in all && Proves(records, source, target, all[i]);
    }
    assert |all| > 1 ==> all[0].event != all[1].event;
  }

  lemma OnlyIsUnique(records: seq<Record>, source: string, target: string, d: Denial)
    requires AllWellFormed(records) && NoneDuplicated(records, source, target)
    requires Proven([d], records, source, target)
    ensures Unique(records, source, target, d)
  {
    hide Ids, ReadEvent, AllWellFormed, NoneDuplicated;
    assert d in [d];
    forall id | id in Ids(records) && id != d.event ensures !ReadEvent(records, id, source, target).Candidate? {
      if ReadEvent(records, id, source, target).Candidate? {
        ProvenByEvent([d], records, source, target, id);
      }
    }
  }

  lemma NoneProven(all: seq<Denial>, records: seq<Record>, source: string, target: string)
    requires NoneDuplicated(records, source, target) && Proven(all, records, source, target)
    ensures all == [] <==> forall id :: id in Ids(records) ==> ReadEvent(records, id, source, target).NoCandidate?
  {
    hide Ids, ReadEvent;
    forall id | id in Ids(records) && ReadEvent(records, id, source, target).Candidate? ensures all != [] {
      ProvenByEvent(all, records, source, target, id);
    }
    if all != [] {
      assert all[0] in all && Proves(records, source, target, all[0]);
    }
  }

  /** How many candidates there are decides, once no event is ambiguous. */
  lemma CandidatesDecide(records: seq<Record>, source: string, target: string)
    requires AllWellFormed(records) && NoneDuplicated(records, source, target)
    ensures var all := Candidates(Ids(records), records, source, target);
      && (forall d :: all == [d] <==> Unique(records, source, target, d))
      && (all == [] <==> forall id :: id in Ids(records) ==> ReadEvent(records, id, source, target).NoCandidate?)
  {
    CandidatesExact(Ids(records), records, source, target);
    var all := Candidates(Ids(records), records, source, target);
    assert Proven(all, records, source, target);
    hide Ids, ReadEvent, Candidates, Unique, Proven, AllWellFormed, NoneDuplicated;
    forall d | Unique(records, source, target, d) ensures all == [d] {
      UniqueIsOnly(all, records, source, target, d);
    }
    forall d | all == [d] ensures Unique(records, source, target, d) {
      OnlyIsUnique(records, source, target, d);
    }
    NoneProven(all, records, source, target);
  }
}
