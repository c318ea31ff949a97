/**
  The authority's transactions over the database and the digest pin kept outside it,
  the enrolled host's own record, and verification of a current enrollment
  (scripts/host_enrollment.py). All instances share one directory, lock and database.
 */
module EnrollmentAuthority {
  import opened Common
  import opened Enrollment

  // ---------- The chain of committed databases ----------

  lemma GrowsTransitive(a: Database, b: Database, c: Database)
    requires Extends(a, b) && Grows(b, c)
    ensures Grows(a, c)
  {
    SizeMonotone(a, b);
  }

  lemma SizeMonotone(a: Database, b: Database)
    requires Extends(a, b)
    ensures Size(a) <= Size(b)
  {
    SubsetSize(a.grants.Keys, b.grants.Keys);
    SubsetSize(a.enrollments.Keys, b.enrollments.Keys);
    assert |a.grants| == |a.grants.Keys| && |b.grants| == |b.grants.Keys|;
    assert |a.enrollments| == |a.enrollments.Keys| && |b.enrollments| == |b.enrollments.Keys|;
  }

  ghost predicate Chain(committed: seq<Database>, authority: string) {
    && committed != []
    && (forall i :: 0 <= i < |committed| ==> Sound(committed[i], authority))
    && (forall i, j :: 0 <= i < j < |committed| ==> Grows(committed[i], committed[j]))
  }

  ghost function Last(committed: seq<Database>): Database
    requires committed != []
  {
    committed[|committed| - 1]
  }

  lemma EarlierIsNotLast(committed: seq<Database>, authority: string, i: nat)
    requires Chain(committed, authority) && i < |committed| - 1
    ensures committed[i] != Last(committed)
  {
    hide Sound, Extends;
    assert Grows(committed[i], committed[|committed| - 1]);
  }

  /** The pin may be ahead of everything committed, never behind. */
  ghost predicate Ahead(committed: seq<Database>, pin: DatabaseDigest)
    requires committed != []
  {
    pin.preimage == Last(committed) || Grows(Last(committed), pin.preimage)
  }

  lemma ChainExtends(committed: seq<Database>, authority: string, next: Database)
    requires Chain(committed, authority) && Sound(next, authority) && Grows(Last(committed), next)
    ensures Chain(committed + [next], authority)
  {
    hide Sound, Extends;
    forall i | 0 <= i < |committed| ensures Grows(committed[i], next) {
      if i < |committed| - 1 {
        assert Grows(committed[i], Last(committed));
        GrowsTransitive(committed[i], Last(committed), next);
      }
    }
  }

  /** A pin that agrees with some committed content agrees with the latest: an older one was rolled back to. */
  lemma PinMeansLatest(committed: seq<Database>, authority: string, pin: DatabaseDigest, i: nat)
    requires Chain(committed, authority) && Ahead(committed, pin) && i < |committed|
    requires pin.preimage == committed[i]
    ensures i == |committed| - 1
  {
    hide Sound, Extends;
    assert i < |committed| - 1 ==> Grows(committed[i], Last(committed));
  }

  ghost predicate AllDistinct(ids: seq<nat>) {
    forall i, j :: 0 <= i < j < |ids| ==> ids[i] != ids[j]
  }

  ghost predicate AllConsumed(ids: seq<nat>, db: Database) {
    forall i :: 0 <= i < |ids| ==> ids[i] in db.grants && db.grants[ids[i]].consumed
  }

  lemma StillConsumed(ids: seq<nat>, before: Database, after: Database)
    requires AllConsumed(ids, before) && Extends(before, after)
    ensures AllConsumed(ids, after)
  {
  }

  // ---------- Reading the tables ----------

  ghost predicate Highest(rows: Enrollments, among: set<nat>, slot: Slot, top: nat) {
    && Occupies(rows, top, slot)
    && forall id :: id in among && Occupies(rows, id, slot) ==> rows[id].generation <= rows[top].generation
  }

  /** The slot's row of the highest generation. */
  method Previous(rows: Enrollments, slot: Slot) returns (r: Option<nat>)
    ensures r.None? <==> forall id :: id in rows ==> !Occupies(rows, id, slot)
    ensures r.Some? ==> Highest(rows, rows.Keys, slot, r.value)
  {
    r := None;
    var left := rows.Keys;
    while left != {}
      invariant left <= rows.Keys
      invariant r.None? <==> forall id :: id in rows.Keys - left ==> !Occupies(rows, id, slot)
      invariant r.Some? ==> Highest(rows, rows.Keys - left, slot, r.value)
      decreases left
    {
      var id :| id in left;
      if rows[id].slot == slot && (r.None? || rows[r.value].generation < rows[id].generation) {
        r := Some(id);
      }
      assert rows.Keys - (left - {id}) == rows.Keys - left + {id};
      left := left - {id};
    }
  }

  /** Every row of the same key or host id is read back, admitted and compared. */
  method AdmitKey(db: Database, b: Binding, incarnation: string) returns (ok: bool)
    ensures ok ==> NotCopied(db.enrollments, b, incarnation)
    ensures NotCopied(db.enrollments, b, incarnation) && AllRecordsAdmitted(db) ==> ok
  {
    hide RecordAdmitted;
    var left := db.enrollments.Keys;
    while left != {}
      invariant left <= db.enrollments.Keys
      invariant forall id :: id in db.enrollments.Keys - left ==> Agrees(db.enrollments[id], b, incarnation)
      decreases left
    {
      var id :| id in left;
      var row := db.enrollments[id];
      if Shares(row, b) {
        if !RecordAdmitted(db, id) || row.identity.incarnation != incarnation || row.request.binding != b {
          return false;
        }
      }
      assert db.enrollments.Keys - (left - {id}) == db.enrollments.Keys - left + {id};
      left := left - {id};
    }
    ok := true;
  }

  /** A first enrollment needs an empty slot; a recovery needs a predecessor and its own authorization. */
  ghost predicate Eligible(rows: Enrollments, slot: Slot, purpose: Purpose, recoverable: bool) {
    match purpose
    case Enroll => forall id :: id in rows ==> !Occupies(rows, id, slot)
    case Recover => recoverable && exists id :: Occupies(rows, id, slot)
    case OtherPurpose => false
  }

  method Generation(db: Database, b: Binding, purpose: Purpose, incarnation: string, recoverable: bool)
    returns (r: Result<nat, ()>)
    ensures r.Success? ==>
      && Eligible(db.enrollments, SlotOf(b.resource), purpose, recoverable)
      && NotCopied(db.enrollments, b, incarnation)
      && NextGeneration(db.enrollments, SlotOf(b.resource), r.value)
    ensures
      (Eligible(db.enrollments, SlotOf(b.resource), purpose, recoverable) && NotCopied(db.enrollments, b, incarnation)
       && AllRecordsAdmitted(db)) ==> r.Success?
  {
    hide RecordAdmitted, NotCopied;
    var previous := Previous(db.enrollments, SlotOf(b.resource));
    if previous.Some? && !RecordAdmitted(db, previous.value) {
      return Failure(());
    }
    match purpose {
      case Enroll =>
        if previous.Some? {
          return Failure(());
        }
      case Recover =>
        if previous.None? || !recoverable {
          return Failure(());
        }
      case OtherPurpose =>
        return Failure(());
    }
    var admitted := AdmitKey(db, b, incarnation);
    if !admitted {
      return Failure(());
    }
    r := Success(if previous.None? then 1 else db.enrollments[previous.value].generation + 1);
  }

  lemma NextIsUnique(rows: Enrollments, slot: Slot, a: nat, b: nat)
    requires NextGeneration(rows, slot, a) && NextGeneration(rows, slot, b)
    ensures a == b
  {
    assert forall k: nat :: HasGeneration(rows, slot, k) ==> k < a && k < b;
  }

  lemma ManagedScope(r: Request, o: Observation, scope: Scope, at: int)
    requires AdmitManagement(RequestDocument(r, None), o, scope, at)
    ensures r.binding.deployment == scope.deployment && r.binding.resource == scope.resource && r.binding.role == scope.role
  {
  }

  /** Management was admitted at some instant of the interval. */
  ghost predicate AdmittedBetween(d: Document, o: Observation, scope: Scope, start: int, end: int) {
    exists at :: start <= at <= end && AdmitManagement(d, o, scope, at)
  }

  // ---------- Operations ----------

  datatype Operation =
    | IssueOperation(scope: Scope, request: Request, purpose: Purpose, ttl: int, id: nat, control: Control)
    | ConsumeOperation(scope: Scope, request: Request, grant: Grant, proof: Signature, control: Control)
    | IdentityOperation(scope: Scope)
    | RestoreOperation(snapshot: nat)
    | PowerLossOperation

  /** What trusted control answers when an operation asks it. */
  datatype Control = Control(observation: Observation, ready: bool, recoverable: bool)

  class Authority {
    /** The fingerprint of the authority's certificate, whose key signs grants. */
    const fingerprint: string

    var db: Database

    /** The published digest as read now, and as a power loss would leave it. */
    var pin: DatabaseDigest
    var durablePin: DatabaseDigest
    var clock: int

    /** Every content the database ever committed, oldest first; any of them may be restored. */
    var committed: seq<Database>

    /** The grants whose credential was handed out, in order. */
    ghost var returned: seq<nat>
    ghost var faults: nat

    ghost predicate Valid()
      reads `db, `pin, `durablePin, `committed, `returned
    {
      && Chain(committed, fingerprint)
      && (exists i :: 0 <= i < |committed| && committed[i] == db)
      && Ahead(committed, pin) && Ahead(committed, durablePin)
      && AllDistinct(returned) && AllConsumed(returned, Last(committed))
    }

    /** The database is what was last committed, and the pin says so. */
    ghost predicate Current()
      reads `db, `pin, `committed
      requires committed != []
    {
      db == Last(committed) && pin == DatabaseDigest(db)
    }

    constructor Initialize(authority: string)
      ensures Valid() && Current() && returned == [] && fingerprint == authority
      ensures db.grants == map[] && db.enrollments == map[]
    {
      var empty := Database(1, authority, map[], map[]);
      fingerprint, db, pin, durablePin := authority, empty, DatabaseDigest(empty), DatabaseDigest(empty);
      clock, committed, returned, faults := 0, [empty], [], 0;
      new;
      assert committed[0] == db;
    }

    method Now() returns (at: int)
      modifies `clock
      ensures at == clock >= old(clock)
    {
      var elapsed: int := *;
      if elapsed > 0 {
        clock := clock + elapsed;
      }
      at := clock;
    }

    /** Opening a transaction: the database must be this authority's and exactly as pinned. */
    method Begin() returns (ok: bool)
      requires Valid()
      modifies `faults
      ensures Valid() && faults >= old(faults)
      ensures ok ==> Current()
      ensures Current() && faults == old(faults) ==> ok
    {
      hide Grows, AllConsumed, AllDistinct;
      var fails: bool := *;
      if fails {
        faults := faults + 1;
        return false;
      }
      ghost var i :| 0 <= i < |committed| && committed[i] == db;
      assert Sound(committed[i], fingerprint);
      ok := db.version == 1 && db.authority == fingerprint && DatabaseDigest(db) == pin;
      if ok {
        PinMeansLatest(committed, fingerprint, pin, i);
      }
    }

    /** Ending a writing transaction: the pin is published before the database commits. */
    method Commit(next: Database) returns (ok: bool)
      requires Valid() && Current() && Sound(next, fingerprint) && Grows(db, next)
      modifies `db, `pin, `durablePin, `committed, `faults
      ensures Valid() && faults >= old(faults)
      ensures ok ==> db == next && committed == old(committed) + [next] && Current()
      ensures !ok ==> faults > old(faults)
      ensures !ok ==>
        (db == old(db) && committed == old(committed)) || (db == next && committed == old(committed) + [next])
    {
      hide Sound, Extends, Chain, AllDistinct, AllConsumed;
      assert committed != [] && Last(committed) == db;
      ChainExtends(committed, fingerprint, next);
      StillConsumed(returned, db, next) by {
        assert Extends(db, next);
      }
      var fate: int := *;
      if 0 <= fate <= 3 {
        faults := faults + 1;
      }
      if fate == 0 {
        return false;             // Nothing published: rolled back.
      }
      pin := DatabaseDigest(next);
      if fate == 1 {
        return false;             // Published but not synced: rolled back.
      }
      durablePin := pin;
      if fate == 2 {
        return false;             // Stopped, or the commit was refused: the pin is ahead.
      }
      db := next;
      committed := committed + [next];
      assert committed[|committed| - 1] == db;
      ok := fate != 3;            // The acknowledgement may be lost.
    }

    // ---------- Granting ----------

    /** Everything a grant is issued on, at one instant. */
    ghost predicate Issuable(scope: Scope, request: Request, purpose: Purpose, ttl: int, id: nat, control: Control, at: int)
      reads `db, `pin, `committed
      requires committed != []
    {
      && Current()
      && ValidRequest(request, at)
      && AdmitManagement(RequestDocument(request, None), control.observation, scope, at) && control.ready
      && 1 <= ttl <= MAX_GRANT_SECONDS
      && Eligible(db.enrollments, SlotOf(scope.resource), purpose, control.recoverable)
      && NotCopied(db.enrollments, request.binding, control.observation.incarnation)
      && id !in db.grants
    }

    /** Every check before a grant is recorded; the grant as it would be issued. */
    method AdmitGrant(scope: Scope, request: Request, purpose: Purpose, ttl: int, id: nat, control: Control)
      returns (r: Result<Grant, ()>)
      requires Valid()
      modifies `clock, `faults
      ensures Valid() && faults >= old(faults) && clock >= old(clock)
      ensures r.Success? ==>
        && Current() && SignedGrant(r.value, fingerprint) && r.value.payload.id == id && id !in db.grants
        && r.value.payload.binding == request.binding && r.value.payload.request == RequestDigest(request)
        && NextGeneration(db.enrollments, SlotOf(scope.resource), r.value.payload.generation)
        && r.value.payload.expiresAt == r.value.payload.issuedAt + ttl && r.value.payload.issuedAt <= clock
        && r.value.payload.purpose == purpose && r.value.payload.incarnation == control.observation.incarnation
        && Eligible(db.enrollments, SlotOf(scope.resource), purpose, control.recoverable)
        && NotCopied(db.enrollments, request.binding, control.observation.incarnation)
        && control.ready && AdmittedBetween(RequestDocument(request, None), control.observation, scope, old(clock), clock)
      ensures !Current() ==> r.Failure?
      ensures faults == old(faults) && clock == old(clock) && old(Issuable(scope, request, purpose, ttl, id, control, clock)) ==>
        r.Success?
    {
      hide Sound, Extends, Grows, Chain, AllDistinct, AllConsumed, RecordAdmitted, NotCopied, NextGeneration, Ahead;
      hide AdmitManagement, ValidRequest, Last;
      var document := RequestDocument(request, None);
      var at := Now();
      if !ValidRequest(request, at) || !AdmitManagement(document, control.observation, scope, at) || !control.ready {
        return Failure(());
      }
      ManagedScope(request, control.observation, scope, at);
      if !(1 <= ttl <= MAX_GRANT_SECONDS) {
        return Failure(());
      }
      var begun := Begin();
      if !begun {
        return Failure(());
      }
      CurrentIsSound();
      var generation := Generation(db, request.binding, purpose, control.observation.incarnation, control.recoverable);
      if generation.Failure? {
        return Failure(());
      }
      at := Now();
      if !AdmitManagement(document, control.observation, scope, at) {
        return Failure(());
      }
      at := Now();
      var payload := Payload(id, Binding(scope.deployment, scope.resource, scope.role, request.binding.host,
                                         request.binding.machine, request.binding.key),
                             RequestDigest(request), generation.value, control.observation.incarnation, purpose, at,
                             at + ttl, fingerprint);
      if id in db.grants {
        return Failure(());       // The primary key.
      }
      r := Success(Grant(payload, Signature(fingerprint, GrantMessage(payload))));
    }

    method Issue(scope: Scope, request: Request, purpose: Purpose, ttl: int, id: nat, control: Control)
      returns (r: Result<Grant, ()>)
      requires Valid()
      modifies `db, `pin, `durablePin, `clock, `committed, `faults
      ensures Valid() && faults >= old(faults) && clock >= old(clock) && old(committed) <= committed
      ensures r.Success? ==>
        && old(Current()) && Current() && SignedGrant(r.value, fingerprint)
        && r.value.payload.id == id && id !in old(db).grants && db == WithGrant(old(db), r.value)
        && r.value.payload.binding == request.binding && r.value.payload.request == RequestDigest(request)
        && NextGeneration(old(db).enrollments, SlotOf(scope.resource), r.value.payload.generation)
        && r.value.payload.expiresAt == r.value.payload.issuedAt + ttl && r.value.payload.issuedAt <= clock
        && r.value.payload.purpose == purpose && r.value.payload.incarnation == control.observation.incarnation
        && Eligible(old(db).enrollments, SlotOf(scope.resource), purpose, control.recoverable)
        && NotCopied(old(db).enrollments, request.binding, control.observation.incarnation)
        && control.ready && AdmittedBetween(RequestDocument(request, None), control.observation, scope, old(clock), clock)
      ensures r.Failure? && faults == old(faults) ==> db == old(db) && committed == old(committed) && pin == old(pin)
      ensures !old(Current()) ==> r.Failure? && db == old(db) && committed == old(committed) && pin == old(pin)
      ensures faults == old(faults) && clock == old(clock) && old(Issuable(scope, request, purpose, ttl, id, control, clock)) ==>
        r.Success?
    {
      hide Sound, Extends, Grows, Chain, AllDistinct, AllConsumed, RecordAdmitted, NotCopied, NextGeneration, Ahead;
      hide AdmitManagement, ValidRequest, SignedGrant, Eligible, AdmittedBetween;
      r := AdmitGrant(scope, request, purpose, ttl, id, control);
      if r.Failure? {
        return;
      }
      CurrentIsSound();
      GrantingGrows(db, fingerprint, r.value);
      var done := Commit(WithGrant(db, r.value));
      if !done {
        r := Failure(());
      }
    }

    lemma CurrentIsSound()
      requires Valid() && Current()
      ensures Sound(db, fingerprint) && AllRecordsAdmitted(db)
    {
    }

    // ---------- Consuming ----------

    ghost predicate Consumable(scope: Scope, request: Request, grant: Grant, proof: Signature, control: Control, at: int)
      reads `db, `pin, `committed
      requires committed != []
    {
      && Current()
      && CurrentGrant(grant, fingerprint, at) && ValidRequest(request, at)
      && grant.payload.request == RequestDigest(request) && grant.payload.binding == request.binding
      && proof == Signature(request.csrKey, EnrollmentPossession(grant))
      && AdmitManagement(RequestDocument(request, Some(proof)), control.observation, scope, at) && control.ready
      && grant.payload.incarnation == control.observation.incarnation
      && grant.payload.id in db.grants && db.grants[grant.payload.id] == GrantRow(grant, false)
      && Eligible(db.enrollments, SlotOf(scope.resource), grant.payload.purpose, control.recoverable)
      && NotCopied(db.enrollments, request.binding, grant.payload.incarnation)
      && NextGeneration(db.enrollments, SlotOf(scope.resource), grant.payload.generation)
    }

    /** The checks that need no database. */
    predicate Bound(request: Request, grant: Grant, proof: Signature, incarnation: string, at: int) {
      && CurrentGrant(grant, fingerprint, at)
      && grant.payload.request == RequestDigest(request) && grant.payload.binding == request.binding
      && ValidRequest(request, at) && proof == Signature(request.csrKey, EnrollmentPossession(grant))
      && grant.payload.incarnation == incarnation
    }

    /** All that is checked before a certificate is signed. */
    method AdmitConsumption(scope: Scope, request: Request, grant: Grant, proof: Signature, control: Control)
      returns (ok: bool)
      requires Valid()
      modifies `clock, `faults
      ensures Valid() && faults >= old(faults) && clock >= old(clock)
      ensures ok ==>
        && Current() && CurrentGrant(grant, fingerprint, clock) && old(clock) < grant.payload.expiresAt
        && grant.payload.request == RequestDigest(request) && grant.payload.binding == request.binding
        && request.csrKey == request.binding.key && proof == Signature(request.csrKey, EnrollmentPossession(grant))
        && grant.payload.incarnation == control.observation.incarnation && grant.payload.binding.resource == scope.resource
        && grant.payload.id in db.grants && db.grants[grant.payload.id] == GrantRow(grant, false)
        && NotCopied(db.enrollments, request.binding, grant.payload.incarnation)
        && NextGeneration(db.enrollments, SlotOf(scope.resource), grant.payload.generation)
      ensures faults == old(faults) && clock == old(clock) && old(Consumable(scope, request, grant, proof, control, clock)) ==>
        ok
    {
      hide Sound, Extends, Grows, Chain, AllDistinct, AllConsumed, RecordAdmitted, NotCopied, NextGeneration;
      hide Eligible, Ahead;
      var document := RequestDocument(request, Some(proof));
      var at := Now();
      if !Bound(request, grant, proof, control.observation.incarnation, at)
         || !AdmitManagement(document, control.observation, scope, at) || !control.ready {
        return false;
      }
      var begun := Begin();
      if !begun {
        return false;
      }
      CurrentIsSound();
      var id := grant.payload.id;
      if id !in db.grants || db.grants[id].envelope != grant || db.grants[id].consumed {
        return false;
      }
      var generation := Generation(db, request.binding, grant.payload.purpose, control.observation.incarnation,
                                   control.recoverable);
      if generation.Success? && NextGeneration(db.enrollments, SlotOf(scope.resource), grant.payload.generation) {
        NextIsUnique(db.enrollments, SlotOf(scope.resource), generation.value, grant.payload.generation);
      }
      if generation.Failure? || generation.value != grant.payload.generation {
        return false;
      }
      at := Now();
      ok := AdmitManagement(document, control.observation, scope, at)
            && grant.payload.issuedAt <= at < grant.payload.expiresAt;
    }

    method Consume(scope: Scope, request: Request, grant: Grant, proof: Signature, control: Control)
      returns (r: Result<Credential, ()>)
      requires Valid()
      modifies this
      ensures Valid() && faults >= old(faults) && clock >= old(clock) && old(committed) <= committed
      ensures r.Success? ==>
        && old(Current()) && Current() && r.value.grant == grant && AdmitCertificate(r.value.certificate, grant)
        && grant.payload.id in old(db).grants && old(db).grants[grant.payload.id] == GrantRow(grant, false)
        && grant.payload.id !in old(returned) && returned == old(returned) + [grant.payload.id]
        && db == WithEnrollment(old(db), request, grant, r.value.certificate)
        && NextGeneration(old(db).enrollments, SlotOf(scope.resource), grant.payload.generation)
        && proof == Signature(request.binding.key, EnrollmentPossession(grant))
        && grant.payload.issuedAt <= clock < grant.payload.expiresAt
        && grant.payload.request == RequestDigest(request) && grant.payload.binding == request.binding
        && grant.payload.incarnation == control.observation.incarnation
        && NotCopied(old(db).enrollments, request.binding, grant.payload.incarnation)
        && control.ready && AdmitManagement(RequestDocument(request, Some(proof)), control.observation, scope, clock)
      ensures r.Failure? ==> returned == old(returned)
      ensures r.Failure? && faults == old(faults) ==> db == old(db) && committed == old(committed) && pin == old(pin)
      ensures !old(Current()) ==> r.Failure? && db == old(db) && committed == old(committed) && pin == old(pin)
      ensures faults == old(faults) && clock == old(clock) && old(Consumable(scope, request, grant, proof, control, clock)) ==>
        r.Success?
    {
      hide Sound, Extends, Grows, Chain, AllDistinct, AllConsumed, RecordAdmitted, NotCopied, NextGeneration;
      hide Eligible, Ahead;
      var admitted := AdmitConsumption(scope, request, grant, proof, control);
      if !admitted {
        return Failure(());
      }
      CurrentIsSound();
      var id := grant.payload.id;
      var issued: bool := *;
      if !issued {
        faults := faults + 1;
        return Failure(());
      }
      var certificate := Certificate(PayloadDigest(grant.payload), request.csrKey);
      var at := Now();
      if at >= grant.payload.expiresAt || !control.ready
         || !AdmitManagement(RequestDocument(request, Some(proof)), control.observation, scope, at) {
        return Failure(());
      }
      EnrollingGrows(db, fingerprint, request, grant, certificate);
      NotReturnedYet(id);
      var done := Commit(WithEnrollment(db, request, grant, certificate));
      if !done {
        return Failure(());
      }
      HandedOut(returned, id, db);
      returned := returned + [id];
      r := Success(Credential(grant, certificate));
    }

    lemma NotReturnedYet(id: nat)
      requires Valid() && Current() && id in db.grants && !db.grants[id].consumed
      ensures id !in returned
    {
    }

    lemma HandedOut(ids: seq<nat>, id: nat, after: Database)
      requires AllDistinct(ids) && AllConsumed(ids, after) && id !in ids
      requires id in after.grants && after.grants[id].consumed
      ensures AllDistinct(ids + [id]) && AllConsumed(ids + [id], after)
    {
    }

    // ---------- The current enrollment ----------

    /** `id` is the slot's latest enrollment, under this scope. */
    ghost predicate Registered(scope: Scope, id: nat)
      reads `db
    {
      && Highest(db.enrollments, db.enrollments.Keys, SlotOf(scope.resource), id)
      && RecordAdmitted(db, id)
      && var b := db.enrollments[id].identity.binding;
      && b.resource == scope.resource && b.deployment == scope.deployment && b.role == scope.role
    }

    method CurrentIdentity(scope: Scope) returns (r: Result<nat, ()>)
      requires Valid()
      modifies `faults
      ensures Valid() && faults >= old(faults)
      ensures r.Success? ==> Current() && Registered(scope, r.value)
      ensures faults == old(faults) && Current() && (exists id :: Registered(scope, id)) ==> r.Success?
    {
      hide Extends, Grows, Chain, AllDistinct, AllConsumed, Ahead;
      var begun := Begin();
      if !begun {
        return Failure(());
      }
      CurrentIsSound();
      var previous := Previous(db.enrollments, SlotOf(scope.resource));
      if previous.None? || !RecordAdmitted(db, previous.value) {
        return Failure(());
      }
      if id :| Registered(scope, id) {
        assert db.enrollments[id].generation == db.enrollments[previous.value].generation;
      }
      var b := db.enrollments[previous.value].identity.binding;
      if b.resource != scope.resource || b.deployment != scope.deployment || b.role != scope.role {
        return Failure(());
      }
      r := Success(previous.value);
    }

    // ---------- Whole runs ----------

    /** The database may be set back to anything it ever committed. */
    method Restore(snapshot: nat)
      requires Valid()
      modifies `db
      ensures Valid()
      ensures snapshot < |committed| - 1 ==> !Current()
      ensures db == if snapshot < |committed| then committed[snapshot] else old(db)
    {
      hide Sound, Extends, Grows, Chain, AllDistinct, AllConsumed, Ahead;
      if snapshot < |committed| - 1 {
        EarlierIsNotLast(committed, fingerprint, snapshot);
      }
      if snapshot < |committed| {
        db := committed[snapshot];
      }
    }

    method PowerLoss()
      requires Valid()
      modifies `pin, `durablePin
      ensures Valid()
    {
      hide Sound, Extends, Grows, Chain, AllDistinct, AllConsumed, Last;
      var kept: bool := *;
      if !kept {
        pin := durablePin;
      }
      durablePin := pin;
    }

    method Run(operations: seq<Operation>)
      requires Valid()
      modifies this
      ensures Valid() && old(returned) <= returned && old(committed) <= committed
      ensures operations == [] ==> db == old(db) && pin == old(pin) && committed == old(committed) && faults == old(faults)
      ensures operations == [] ==> clock == old(clock)
    {
      hide Sound, Extends, Grows, Chain, AllDistinct, AllConsumed, Ahead, NextGeneration, RecordAdmitted, Last;
      for i := 0 to |operations|
        invariant Valid() && old(returned) <= returned && old(committed) <= committed
        invariant i == 0 ==> db == old(db) && pin == old(pin) && committed == old(committed)
        invariant i == 0 ==> faults == old(faults) && clock == old(clock)
      {
        match operations[i] {
          case IssueOperation(scope, request, purpose, ttl, id, control) =>
            var r := Issue(scope, request, purpose, ttl, id, control);
          case ConsumeOperation(scope, request, grant, proof, control) =>
            var r := Consume(scope, request, grant, proof, control);
          case IdentityOperation(scope) =>
            var r := CurrentIdentity(scope);
          case RestoreOperation(snapshot) =>
            Restore(snapshot);
          case PowerLossOperation =>
            PowerLoss();
        }
      }
    }

    // ---------- Verification of a live host ----------

    /** A registered identity with a fresh proof of its key, managed as registered. */
    ghost predicate Authentic(scope: Scope, identity: Identity, challenge: seq<byte>, proof: Signature,
                              observation: Observation, at: int)
      reads this
      requires committed != []
    {
      && Current() && IsRegistered(scope, identity)
      && |challenge| == 32 && proof == Signature(identity.binding.key, IdentityPossession(identity, challenge))
      && AdmitManagement(IdentityDocument(identity, identity.binding.machine, challenge, proof), observation, scope, at)
    }

    ghost predicate IsRegistered(scope: Scope, identity: Identity)
      reads `db
    {
      exists id :: Registered(scope, id) && db.enrollments[id].identity == identity
    }

    lemma OneRegistered(scope: Scope, a: nat, b: nat)
      requires Valid() && Current() && Registered(scope, a) && Registered(scope, b)
      ensures a == b
    {
    }

    /** Is this the current registration? If so, the key and machine it is registered with. */
    method ReadRegistration(scope: Scope, identity: Identity) returns (ok: bool, key: string, machine: string)
      requires Valid()
      modifies `faults
      ensures Valid() && faults >= old(faults)
      ensures ok ==> Current() && IsRegistered(scope, identity)
      ensures ok ==> key == identity.binding.key && machine == identity.binding.machine
      ensures faults == old(faults) && Current() && IsRegistered(scope, identity) ==> ok
    {
      hide Sound, Extends, Grows, Chain, AllDistinct, AllConsumed, Ahead;
      var current := CurrentIdentity(scope);
      if current.Failure? {
        return false, "", "";
      }
      var row := db.enrollments[current.value];
      if id :| Registered(scope, id) && db.enrollments[id].identity == identity {
        OneRegistered(scope, id, current.value);
      }
      ok, key, machine := row.identity == identity, row.request.csrKey, row.request.binding.machine;
    }

    /**
      `during` is whatever else the authority does between the two readings of the current
      registration. The second reading decides.
     */
    method Authenticate(scope: Scope, identity: Identity, challenge: seq<byte>, proof: Signature,
                        observation: Observation, during: seq<Operation>) returns (ok: bool)
      requires Valid()
      modifies this
      ensures Valid() && old(returned) <= returned
      ensures ok ==>
        && Current() && IsRegistered(scope, identity)
        && |challenge| == 32 && proof == Signature(identity.binding.key, IdentityPossession(identity, challenge))
        && observation.incarnation == identity.incarnation && observation.machine == identity.binding.machine
      ensures (during == [] && faults == old(faults) && clock == old(clock)
               && old(Authentic(scope, identity, challenge, proof, observation, clock))) ==> ok
    {
      hide Sound, Extends, Grows, Chain, AllDistinct, AllConsumed, Ahead, IsRegistered;
      if |challenge| != 32 {
        return false;
      }
      var current, key, machine := ReadRegistration(scope, identity);
      if !current || proof != Signature(key, IdentityPossession(identity, challenge)) {
        return false;
      }
      var document := IdentityDocument(identity, machine, challenge, proof);
      var at := Now();
      if !AdmitManagement(document, observation, scope, at) {
        return false;
      }
      Run(during);
      current, key, machine := ReadRegistration(scope, identity);
      if !current {
        return false;
      }
      at := Now();
      ok := AdmitManagement(document, observation, scope, at);
    }
  }

  // ---------- The enrolled host ----------

  /** Each credential after the first was a recovery to a higher generation. */
  ghost predicate Ascends(held: seq<Credential>) {
    forall i, j :: 0 <= i < j < |held| ==>
      && held[i].grant.payload.generation < held[j].grant.payload.generation
      && held[j].grant.payload.purpose == Recover
  }

  lemma AscendsExtends(held: seq<Credential>, next: Credential)
    requires Ascends(held)
    requires held != [] ==>
      next.grant.payload.purpose == Recover
      && held[|held| - 1].grant.payload.generation < next.grant.payload.generation
    ensures Ascends(held + [next])
  {
    var after := held + [next];
    forall i, j | 0 <= i < j < |after|
      ensures after[i].grant.payload.generation < after[j].grant.payload.generation
      ensures after[j].grant.payload.purpose == Recover
    {
      var last := |held| - 1;
      assert after[i] == held[i];
      if j < |held| {
        assert after[j] == held[j];
      } else {
        assert after[j] == next;
        assert i < last ==> held[i].grant.payload.generation < held[last].grant.payload.generation;
      }
    }
  }

  /** The host's directory: its identity, and the one credential it holds. */
  class LocalHost {
    const binding: Binding
    var enrollment: Option<Credential>

    /** Every credential the directory ever held. */
    ghost var held: seq<Credential>

    ghost predicate Valid()
      reads this
    {
      && enrollment == (if held == [] then None else Some(held[|held| - 1]))
      && (forall i :: 0 <= i < |held| ==>
            held[i].grant.payload.binding == binding && AdmitCertificate(held[i].certificate, held[i].grant))
      && Ascends(held)
    }

    constructor (b: Binding)
      ensures Valid() && binding == b && held == []
    {
      binding, enrollment, held := b, None, [];
    }

    /** A later credential replaces the first only by recovery, and only by a higher generation. */
    predicate Acceptable(credential: Credential, machine: string, authority: string, at: int)
      reads this
    {
      && machine == binding.machine && CurrentGrant(credential.grant, authority, at)
      && credential.grant.payload.binding == binding && AdmitCertificate(credential.certificate, credential.grant)
      && (enrollment.Some? ==>
            && credential.grant.payload.purpose == Recover
            && enrollment.value.grant.payload.generation < credential.grant.payload.generation)
    }

    /** `fate` is how the write of enrollment.json ends; its sync may fail after it was replaced. */
    method Accept(credential: Credential, machine: string, authority: string, at: int, fate: Written) returns (ok: bool)
      requires Valid()
      modifies this
      ensures Valid()
      ensures ok <==> old(Acceptable(credential, machine, authority, at)) && fate.Confirmed?
      ensures held == if old(Acceptable(credential, machine, authority, at)) && !fate.Unwritten?
                      then old(held) + [credential] else old(held)
    {
      hide Ascends, CurrentGrant, AdmitCertificate;
      var p := credential.grant.payload;
      if machine != binding.machine || !CurrentGrant(credential.grant, authority, at) || p.binding != binding
         || !AdmitCertificate(credential.certificate, credential.grant) {
        return false;
      }
      if enrollment.Some?
         && (p.purpose != Recover || p.generation <= enrollment.value.grant.payload.generation) {
        return false;
      }
      if fate.Unwritten? {
        return false;
      }
      AscendsExtends(held, credential);
      enrollment, held := Some(credential), held + [credential];
      ok := fate.Confirmed?;
    }
  }
}
