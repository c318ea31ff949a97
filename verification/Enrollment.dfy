/**
  The enrollment authority: single-use grants, contiguous generations and key binding,
  with the database's digest pinned outside the database (scripts/host_enrollment.py).
 */
module Enrollment {
  import opened Common

  const MAX_GRANT_SECONDS := 300
  const MAX_OBSERVATION_AGE := 60

  // ---------- Documents ----------

  // SHA-256 of canonical documents, as the injective function it is relied on to be.
  datatype RequestDigest = RequestDigest(preimage: Request)
  datatype PayloadDigest = PayloadDigest(preimage: Payload)
  datatype CertificateDigest = CertificateDigest(preimage: Certificate)
  datatype DocumentDigest = DocumentDigest(preimage: Document)
  datatype DatabaseDigest = DatabaseDigest(preimage: Database)

  datatype Resource = Resource(provider: string, scope: string, alias: string, id: string)

  /** The provider's exact resource, whatever alias it was requested under. */
  datatype Slot = Slot(provider: string, scope: string, id: string)

  function SlotOf(r: Resource): Slot {
    Slot(r.provider, r.scope, r.id)
  }

  datatype Scope = Scope(deployment: string, resource: Resource, role: string)

  /** What a host key may never move away from. */
  datatype Binding = Binding(deployment: string, resource: Resource, role: string, host: string, machine: string,
                             key: string)

  datatype Request = Request(binding: Binding, createdAt: int, identityCreatedAt: int, csrKey: string)

  datatype Purpose = Enroll | Recover | OtherPurpose

  datatype Payload = Payload(id: nat, binding: Binding, request: RequestDigest, generation: nat, incarnation: string,
                             purpose: Purpose, issuedAt: int, expiresAt: int, authority: string)

  datatype Message =
    | GrantMessage(payload: Payload)
    | EnrollmentPossession(grant: Grant)
    | IdentityPossession(identity: Identity, challenge: seq<byte>)

  /** Only the holder of `key` makes one of these; verification compares. */
  datatype Signature = Signature(key: string, message: Message)

  datatype Grant = Grant(payload: Payload, signature: Signature)

  datatype Certificate = Certificate(subject: PayloadDigest, key: string)

  datatype Identity = Identity(binding: Binding, generation: nat, grant: nat, incarnation: string,
                               certificate: CertificateDigest)

  datatype Credential = Credential(grant: Grant, certificate: Certificate)

  function IdentityOf(g: Grant, c: Certificate): Identity {
    Identity(g.payload.binding, g.payload.generation, g.payload.id, g.payload.incarnation, CertificateDigest(c))
  }

  predicate ValidRequest(r: Request, at: int) {
    r.identityCreatedAt <= r.createdAt <= at && at - r.createdAt <= MAX_GRANT_SECONDS && r.csrKey == r.binding.key
  }

  predicate SignedGrant(g: Grant, authority: string) {
    && g.payload.purpose != OtherPurpose
    && 0 < g.payload.expiresAt - g.payload.issuedAt <= MAX_GRANT_SECONDS
    && g.payload.authority == authority
    && g.signature == Signature(authority, GrantMessage(g.payload))
  }

  predicate CurrentGrant(g: Grant, authority: string, at: int) {
    SignedGrant(g, authority) && g.payload.issuedAt <= at < g.payload.expiresAt
  }

  predicate AdmitCertificate(c: Certificate, g: Grant) {
    c.subject == PayloadDigest(g.payload) && c.key == g.payload.binding.key
  }

  // ---------- What trusted control observed ----------

  datatype Document =
    | RequestDocument(request: Request, possession: Option<Signature>)
    | IdentityDocument(identity: Identity, machine: string, challenge: seq<byte>, proof: Signature)

  /** `managed`: the provider's own request and result contracts admit an INSPECT of `resource`. */
  datatype Observation = Observation(managed: bool, resource: Resource, machine: string, incarnation: string,
                                     document: DocumentDigest, observedAt: int)

  predicate AdmitManagement(d: Document, o: Observation, scope: Scope, at: int) {
    && (match d
        case RequestDocument(r, _) =>
          && r.binding.deployment == scope.deployment && r.binding.resource == scope.resource
          && r.binding.role == scope.role && o.machine == r.binding.machine
        case IdentityDocument(i, machine, _, _) =>
          && i.binding.deployment == scope.deployment && i.binding.resource == scope.resource
          && i.binding.role == scope.role && o.machine == machine && o.incarnation == i.incarnation)
    && o.managed && o.resource == scope.resource
    && o.document == DocumentDigest(d)
    && 0 <= at - o.observedAt <= MAX_OBSERVATION_AGE
  }

  // ---------- The database ----------

  datatype GrantRow = GrantRow(envelope: Grant, consumed: bool)

  datatype EnrollmentRow = EnrollmentRow(slot: Slot, generation: nat, host: string, key: string, request: Request,
                                         certificate: Certificate, identity: Identity)

  /** Keyed by grant id, which is also the order the rows are digested in. */
  datatype Database = Database(version: int, authority: string, grants: map<nat, GrantRow>,
                               enrollments: map<nat, EnrollmentRow>)

  /** _record: an enrollment row agrees with its consumed grant in every field. */
  predicate RecordAdmitted(db: Database, id: nat) {
    && id in db.enrollments && id in db.grants && db.grants[id].consumed
    && var row, g := db.enrollments[id], db.grants[id].envelope;
    && SignedGrant(g, db.authority) && AdmitCertificate(row.certificate, g)
    && row.identity == IdentityOf(g, row.certificate)
    && row.request.csrKey == g.payload.binding.key
    && g.payload.id == id && g.payload.request == RequestDigest(row.request) && row.request.binding == g.payload.binding
    && row.slot == SlotOf(g.payload.binding.resource) && row.generation == g.payload.generation
    && row.host == g.payload.binding.host && row.key == g.payload.binding.key
  }

  predicate AllRecordsAdmitted(db: Database) {
    forall id :: id in db.enrollments ==> RecordAdmitted(db, id)
  }

  type Enrollments = map<nat, EnrollmentRow>

  predicate Occupies(rows: Enrollments, id: nat, slot: Slot) {
    id in rows && rows[id].slot == slot
  }

  predicate Shares(row: EnrollmentRow, b: Binding) {
    row.key == b.key || row.host == b.host
  }

  predicate Agrees(row: EnrollmentRow, b: Binding, incarnation: string) {
    Shares(row, b) ==> row.request.binding == b && row.identity.incarnation == incarnation
  }

  /** Does no other host, key, machine or place already own this key or host id? */
  predicate NotCopied(rows: Enrollments, b: Binding, incarnation: string) {
    forall id :: id in rows ==> Agrees(rows[id], b, incarnation)
  }

  ghost predicate GenerationsUnique(rows: Enrollments) {
    forall i, j :: i in rows && j in rows && i != j ==>
      rows[i].slot != rows[j].slot || rows[i].generation != rows[j].generation
  }

  ghost predicate HasGeneration(rows: Enrollments, slot: Slot, generation: nat) {
    exists id :: Occupies(rows, id, slot) && rows[id].generation == generation
  }

  ghost predicate GenerationsContiguous(rows: Enrollments) {
    forall id :: id in rows ==>
      && rows[id].generation >= 1
      && (rows[id].generation > 1 ==> HasGeneration(rows, rows[id].slot, rows[id].generation - 1))
  }

  ghost predicate BindingsAgree(rows: Enrollments) {
    forall id :: id in rows ==> NotCopied(rows, rows[id].request.binding, rows[id].identity.incarnation)
  }

  ghost predicate GrantsHonest(db: Database) {
    forall id :: id in db.grants ==>
      db.grants[id].envelope.payload.id == id && (db.grants[id].consumed <==> id in db.enrollments)
  }

  ghost predicate Sound(db: Database, authority: string) {
    && db.version == 1 && db.authority == authority
    && AllRecordsAdmitted(db)
    && GrantsHonest(db)
    && GenerationsUnique(db.enrollments) && GenerationsContiguous(db.enrollments) && BindingsAgree(db.enrollments)
  }

  /** Nothing issued, consumed or enrolled is ever taken back. */
  ghost predicate Extends(a: Database, b: Database) {
    && (forall id :: id in a.grants ==>
          id in b.grants && b.grants[id].envelope == a.grants[id].envelope && (a.grants[id].consumed ==> b.grants[id].consumed))
    && (forall id :: id in a.enrollments ==> id in b.enrollments && b.enrollments[id] == a.enrollments[id])
  }

  function Size(db: Database): nat {
    |db.grants| + |db.enrollments|
  }

  ghost predicate Grows(a: Database, b: Database) {
    Extends(a, b) && Size(a) < Size(b)
  }

  // ---------- What the invariant says ----------

  lemma {:induction false} AllBelow(rows: Enrollments, slot: Slot, generation: nat, k: nat)
    requires GenerationsContiguous(rows) && HasGeneration(rows, slot, generation) && 1 <= k <= generation
    ensures HasGeneration(rows, slot, k)
    decreases generation - k
  {
    if k < generation {
      AllBelow(rows, slot, generation, k + 1);
    }
  }

  ghost predicate Exactly(rows: Enrollments, slot: Slot, n: nat) {
    forall k: nat :: HasGeneration(rows, slot, k) <==> 1 <= k <= n
  }

  /** In each slot the generations are exactly 1..n, each enrolled once. */
  lemma GenerationsAreOneToN(db: Database, authority: string, slot: Slot)
    requires Sound(db, authority)
    ensures exists n :: Exactly(db.enrollments, slot, n)
    ensures forall i, j :: Occupies(db.enrollments, i, slot) && Occupies(db.enrollments, j, slot) && i != j ==>
      db.enrollments[i].generation != db.enrollments[j].generation
  {
    var rows := db.enrollments;
    var n := Top(rows, slot);
    forall k: nat | 1 <= k <= n ensures HasGeneration(rows, slot, k) {
      AllBelow(rows, slot, n, k);
    }
    assert Exactly(rows, slot, n);
  }

  ghost function Top(rows: Enrollments, slot: Slot): (n: nat)
    ensures forall id :: Occupies(rows, id, slot) ==> rows[id].generation <= n
    ensures n > 0 ==> HasGeneration(rows, slot, n)
  {
    var generations := set id | id in rows && rows[id].slot == slot :: rows[id].generation;
    assert forall id :: Occupies(rows, id, slot) ==> rows[id].generation in generations;
    Maximum(generations)
  }

  ghost function Maximum(s: set<nat>): (n: nat)
    ensures forall k :: k in s ==> k <= n
    ensures n > 0 ==> n in s
  {
    if s == {} then 0
    else
      var k :| k in s;
      var rest := Maximum(s - {k});
      assert forall x :: x in s ==> x == k || x in s - {k};
      if k < rest then rest else k
  }

  /** Any two enrollments of one key, or of one host id, are of one host, machine, place and incarnation. */
  lemma EnrollmentsAgree(db: Database, authority: string, i: nat, j: nat)
    requires Sound(db, authority) && i in db.enrollments && j in db.enrollments
    requires db.enrollments[i].key == db.enrollments[j].key || db.enrollments[i].host == db.enrollments[j].host
    ensures db.enrollments[i].request.binding == db.enrollments[j].request.binding
    ensures db.enrollments[i].identity.incarnation == db.enrollments[j].identity.incarnation
  {
    assert RecordAdmitted(db, i) && RecordAdmitted(db, j);
    assert NotCopied(db.enrollments, db.enrollments[j].request.binding, db.enrollments[j].identity.incarnation);
    assert Agrees(db.enrollments[i], db.enrollments[j].request.binding, db.enrollments[j].identity.incarnation);
  }

  /** However many grants were issued for one generation, at most one of them is ever consumed. */
  lemma OneGrantPerGeneration(db: Database, authority: string, i: nat, j: nat)
    requires Sound(db, authority) && i in db.grants && j in db.grants
    requires db.grants[i].consumed && db.grants[j].consumed
    requires SlotOf(db.grants[i].envelope.payload.binding.resource) == SlotOf(db.grants[j].envelope.payload.binding.resource)
    requires db.grants[i].envelope.payload.generation == db.grants[j].envelope.payload.generation
    ensures i == j
  {
    assert RecordAdmitted(db, i) && RecordAdmitted(db, j);
  }

  // ---------- Steps on the database ----------

  function WithGrant(db: Database, g: Grant): Database {
    db.(grants := db.grants[g.payload.id := GrantRow(g, false)])
  }

  function RowOf(request: Request, g: Grant, c: Certificate): EnrollmentRow {
    EnrollmentRow(SlotOf(g.payload.binding.resource), g.payload.generation, g.payload.binding.host,
                  g.payload.binding.key, request, c, IdentityOf(g, c))
  }

  function WithEnrollment(db: Database, request: Request, g: Grant, c: Certificate): Database {
    db.(enrollments := db.enrollments[g.payload.id := RowOf(request, g, c)],
        grants := db.grants[g.payload.id := GrantRow(g, true)])
  }

  lemma RecordKept(db: Database, next: Database, id: nat)
    requires RecordAdmitted(db, id) && next.authority == db.authority
    requires id in next.enrollments && next.enrollments[id] == db.enrollments[id]
    requires id in next.grants && next.grants[id] == db.grants[id]
    ensures RecordAdmitted(next, id)
  {
  }

  lemma GrantingGrows(db: Database, authority: string, g: Grant)
    requires Sound(db, authority) && g.payload.id !in db.grants
    ensures Sound(WithGrant(db, g), authority) && Grows(db, WithGrant(db, g))
  {
    hide RecordAdmitted, GenerationsUnique, GenerationsContiguous, BindingsAgree;
    var next := WithGrant(db, g);
    if g.payload.id in db.enrollments {
      RecordIssued(db, g.payload.id);
    }
    forall id | id in next.enrollments ensures RecordAdmitted(next, id) {
      assert id in db.grants by { RecordIssued(db, id); }
      RecordKept(db, next, id);
    }
  }

  lemma RecordIssued(db: Database, id: nat)
    requires RecordAdmitted(db, id)
    ensures id in db.grants && db.grants[id].consumed
  {
  }

  ghost predicate NextGeneration(rows: Enrollments, slot: Slot, generation: nat) {
    && generation >= 1 && (generation > 1 ==> HasGeneration(rows, slot, generation - 1))
    && (forall id :: Occupies(rows, id, slot) ==> rows[id].generation < generation)
  }

  lemma EnrollingGrows(db: Database, authority: string, request: Request, g: Grant, c: Certificate)
    requires Sound(db, authority) && g.payload.id in db.grants && db.grants[g.payload.id] == GrantRow(g, false)
    requires SignedGrant(g, authority) && AdmitCertificate(c, g)
    requires g.payload.request == RequestDigest(request) && request.binding == g.payload.binding
    requires request.csrKey == g.payload.binding.key
    requires NotCopied(db.enrollments, g.payload.binding, g.payload.incarnation)
    requires NextGeneration(db.enrollments, SlotOf(g.payload.binding.resource), g.payload.generation)
    ensures Sound(WithEnrollment(db, request, g, c), authority) && Grows(db, WithEnrollment(db, request, g, c))
  {
    hide RecordAdmitted, GenerationsUnique, GenerationsContiguous, BindingsAgree, NotCopied, NextGeneration, SignedGrant;
    EnrollingKeepsRecords(db, authority, request, g, c);
    EnrollingKeepsGenerations(db.enrollments, g.payload.id, RowOf(request, g, c));
    EnrollingKeepsBindings(db, authority, g.payload.id, RowOf(request, g, c));
    EnrollingAdds(db, request, g, c);
  }

  lemma EnrollingAdds(db: Database, request: Request, g: Grant, c: Certificate)
    requires g.payload.id in db.grants && db.grants[g.payload.id] == GrantRow(g, false)
    requires g.payload.id !in db.enrollments
    ensures Grows(db, WithEnrollment(db, request, g, c))
  {
    var next := WithEnrollment(db, request, g, c);
    assert next.grants.Keys == db.grants.Keys;
    assert |next.grants| == |next.grants.Keys| && |db.grants| == |db.grants.Keys|;
  }

  lemma EnrollingKeepsRecords(db: Database, authority: string, request: Request, g: Grant, c: Certificate)
    requires Sound(db, authority) && g.payload.id in db.grants && db.grants[g.payload.id] == GrantRow(g, false)
    requires SignedGrant(g, authority) && AdmitCertificate(c, g)
    requires g.payload.request == RequestDigest(request) && request.binding == g.payload.binding
    requires request.csrKey == g.payload.binding.key
    ensures forall id :: id in WithEnrollment(db, request, g, c).enrollments ==>
      RecordAdmitted(WithEnrollment(db, request, g, c), id)
  {
    var next := WithEnrollment(db, request, g, c);
    assert RecordAdmitted(next, g.payload.id);
    hide RecordAdmitted, GenerationsUnique, GenerationsContiguous, BindingsAgree, SignedGrant;
    forall id | id in next.enrollments ensures RecordAdmitted(next, id) {
      if id != g.payload.id {
        RecordIssued(db, id);
        RecordKept(db, next, id);
      }
    }
  }

  /** A recorded row carries its request's key and host. */
  predicate RowKeyed(row: EnrollmentRow) {
    row.key == row.request.binding.key && row.host == row.request.binding.host
  }

  lemma AdmittedKeyed(db: Database, authority: string, id: nat)
    requires Sound(db, authority) && id in db.enrollments
    ensures RowKeyed(db.enrollments[id])
  {
    assert RecordAdmitted(db, id);
  }

  /** Agreement of two recorded rows does not depend on which one is asked about. */
  lemma AgreesSymmetric(a: EnrollmentRow, b: EnrollmentRow)
    requires RowKeyed(a) && RowKeyed(b)
    ensures Agrees(a, b.request.binding, b.identity.incarnation) <==> Agrees(b, a.request.binding, a.identity.incarnation)
  {
  }

  lemma EnrollingKeepsBindings(db: Database, authority: string, id: nat, row: EnrollmentRow)
    requires Sound(db, authority) && RowKeyed(row)
    requires NotCopied(db.enrollments, row.request.binding, row.identity.incarnation)
    ensures BindingsAgree(db.enrollments[id := row])
  {
    var rows := db.enrollments;
    var next := rows[id := row];
    forall i | i in rows ensures RowKeyed(rows[i]) {
      AdmittedKeyed(db, authority, i);
    }
    assert BindingsAgree(rows);
    hide Sound, Agrees, RowKeyed;
    forall i, j | i in next && j in next
      ensures Agrees(next[j], next[i].request.binding, next[i].identity.incarnation)
    {
      if i == id && j == id {
        AgreesWithItself(row);
      } else if i == id {
        assert Agrees(rows[j], row.request.binding, row.identity.incarnation);
      } else if j == id {
        AgreesSymmetric(rows[i], row);
      } else {
        assert NotCopied(rows, rows[i].request.binding, rows[i].identity.incarnation);
      }
    }
  }

  lemma AgreesWithItself(row: EnrollmentRow)
    ensures Agrees(row, row.request.binding, row.identity.incarnation)
  {
  }

  lemma EnrollingKeepsGenerations(rows: Enrollments, id: nat, row: EnrollmentRow)
    requires GenerationsUnique(rows) && GenerationsContiguous(rows) && id !in rows
    requires NextGeneration(rows, row.slot, row.generation)
    ensures GenerationsUnique(rows[id := row]) && GenerationsContiguous(rows[id := row])
  {
    hide HasGeneration;
    var next := rows[id := row];
    forall i | i in rows ensures rows[i].slot != row.slot || rows[i].generation != row.generation {
      assert rows[i].slot == row.slot ==> Occupies(rows, i, row.slot);
    }
    forall i | i in next && next[i].generation > 1
      ensures HasGeneration(next, next[i].slot, next[i].generation - 1)
    {
      StillThere(rows, id, row, next[i].slot, next[i].generation - 1);
    }
  }

  lemma StillThere(rows: Enrollments, id: nat, row: EnrollmentRow, slot: Slot, k: nat)
    requires HasGeneration(rows, slot, k) && id !in rows
    ensures HasGeneration(rows[id := row], slot, k)
  {
    var j :| Occupies(rows, j, slot) && rows[j].generation == k;
    assert Occupies(rows[id := row], j, slot);
  }
}
