/**
  The last-known-good store for published CloudFront origin prefixes
  (scripts/cloudfront-origin-prefix-lkg.py). Times are seconds; text is parsed.
 */
module PrefixLkg {
  import opened Common
  import opened Cidr

  const SCHEMA_VERSION := 1
  const SOURCE_URL := "https://ip-ranges.amazonaws.com/ip-ranges.json"
  const SERVICE := "CLOUDFRONT_ORIGIN_FACING"
  const MAX_PROVIDER_FUTURE_SKEW_SECONDS := 300

  /** Everything a candidate's digest binds. */
  datatype Material = Material(schema: int, sourceUrl: string, syncToken: int, createDate: int, retrievedAt: int,
                               service: string, ipv4: seq<Network>, ipv6: seq<Network>)

  /** SHA-256 of the canonical document, as the injective function it is relied on to be. */
  datatype Digest = Sha256(preimage: Material)

  datatype Candidate = Candidate(material: Material, digest: Digest)

  predicate ValidProvenance(m: Material) {
    m.syncToken > 0 && m.syncToken == m.createDate && m.syncToken <= m.retrievedAt + MAX_PROVIDER_FUTURE_SKEW_SECONDS
  }

  /** A family's list: not empty, of that family, no default route, sorted without repeats. */
  predicate ValidFamily(networks: seq<Network>, family: Family) {
    networks != [] && Ascending(networks) && forall n | n in networks :: n.family == family && n.prefix != []
  }

  predicate ValidCandidate(c: Candidate) {
    && c.material.schema == SCHEMA_VERSION && c.material.sourceUrl == SOURCE_URL && c.material.service == SERVICE
    && ValidProvenance(c.material)
    && ValidFamily(c.material.ipv4, V4) && ValidFamily(c.material.ipv6, V6)
    && c.digest == Sha256(c.material)
  }

  // ---------- From the provider's document ----------

  /** One row: whether its fields are present strings, its CIDR if well formed, and its service. */
  datatype Entry = Entry(complete: bool, network: Option<Network>, service: string)

  /** The parsed provider document; None where a collection is missing. */
  datatype Source = Source(syncToken: int, createDate: int, prefixes: Option<seq<Entry>>, ipv6Prefixes: Option<seq<Entry>>)

  predicate WellFormed(e: Entry, family: Family) {
    e.complete && e.network.Some? && e.network.value.family == family && e.network.value.prefix != []
  }

  predicate Selected(e: Entry) {
    e.network.Some? && e.service == SERVICE
  }

  ghost predicate Selectable(entries: seq<Entry>, family: Family) {
    && (forall i :: 0 <= i < |entries| ==> WellFormed(entries[i], family))
    && (forall i, j :: 0 <= i < j < |entries| && Selected(entries[i]) && Selected(entries[j]) ==>
          entries[i].network != entries[j].network)
    && (exists i :: 0 <= i < |entries| && Selected(entries[i]))
  }

  /** The service's networks of one family, or a refusal of the whole document. */
  method SelectPrefixes(collection: Option<seq<Entry>>, family: Family) returns (r: Result<seq<Network>, ()>)
    ensures r.Success? <==> collection.Some? && Selectable(collection.value, family)
    ensures r.Success? ==> ValidFamily(r.value, family)
    ensures r.Success? ==> forall n: Network ::
      n in r.value <==> exists i :: 0 <= i < |collection.value| && Selected(collection.value[i])
                                 && collection.value[i].network == Some(n)
  {
    if collection.None? {
      return Failure(());
    }
    var entries := collection.value;
    var selected: set<Network> := {};
    for k := 0 to |entries|
      invariant forall i :: 0 <= i < k ==> WellFormed(entries[i], family)
      invariant forall i, j :: 0 <= i < j < k && Selected(entries[i]) && Selected(entries[j]) ==>
        entries[i].network != entries[j].network
      invariant forall n: Network ::
        n in selected <==> exists i :: 0 <= i < k && Selected(entries[i]) && entries[i].network == Some(n)
    {
      var e := entries[k];
      if !WellFormed(e, family) {
        return Failure(());
      }
      if e.service == SERVICE {
        if e.network.value in selected {
          return Failure(());
        }
        selected := selected + {e.network.value};
      }
    }
    assert forall i :: 0 <= i < |entries| && Selected(entries[i]) ==> entries[i].network.value in selected;
    if selected == {} {
      return Failure(());
    }
    var sorted := Sort(selected);
    assert forall n :: n in sorted <==> n in selected;
    r := Success(sorted);
  }

  /** A candidate is built exactly when the document is admissible, and what is built validates. */
  method BuildCandidate(source: Source, retrievedAt: int) returns (r: Result<Candidate, ()>)
    ensures r.Success? ==> ValidCandidate(r.value)
    ensures r.Success? ==>
      r.value.material.syncToken == source.syncToken && r.value.material.retrievedAt == retrievedAt
    ensures r.Success? <==>
      && source.syncToken > 0 && source.syncToken == source.createDate
      && source.syncToken <= retrievedAt + MAX_PROVIDER_FUTURE_SKEW_SECONDS
      && source.prefixes.Some? && Selectable(source.prefixes.value, V4)
      && source.ipv6Prefixes.Some? && Selectable(source.ipv6Prefixes.value, V6)
  {
    var provenance := Material(SCHEMA_VERSION, SOURCE_URL, source.syncToken, source.createDate, retrievedAt,
                               SERVICE, [], []);
    if !ValidProvenance(provenance) {
      return Failure(());
    }
    var ipv4 := SelectPrefixes(source.prefixes, V4);
    if ipv4.Failure? {
      return Failure(());
    }
    var ipv6 := SelectPrefixes(source.ipv6Prefixes, V6);
    if ipv6.Failure? {
      return Failure(());
    }
    var material := provenance.(ipv4 := ipv4.value, ipv6 := ipv6.value);
    r := Success(Candidate(material, Sha256(material)));
  }

  // ---------- Succession ----------

  function Version(c: Candidate): int {
    c.material.syncToken
  }

  predicate SamePrefixes(a: Candidate, b: Candidate) {
    a.material.ipv4 == b.material.ipv4 && a.material.ipv6 == b.material.ipv6
  }

  /** May `candidate` replace `accepted`? */
  predicate AdmitSuccessor(accepted: Option<Candidate>, candidate: Candidate) {
    && ValidCandidate(candidate)
    && (accepted.Some? ==>
          && ValidCandidate(accepted.value)
          && Version(accepted.value) <= Version(candidate)
          && (Version(accepted.value) == Version(candidate) ==> SamePrefixes(accepted.value, candidate)))
  }

  lemma SuccessionIsPreorder(a: Candidate, b: Candidate, c: Candidate)
    ensures ValidCandidate(a) ==> AdmitSuccessor(Some(a), a)
    ensures AdmitSuccessor(Some(a), b) && AdmitSuccessor(Some(b), c) ==> AdmitSuccessor(Some(a), c)
  {
  }

  /** Versions never decrease along `run`, and one version always means the same prefixes. */
  ghost predicate Monotone(run: seq<Candidate>) {
    && (forall i :: 0 <= i < |run| ==> ValidCandidate(run[i]))
    && (forall i, j :: 0 <= i < j < |run| ==>
          && Version(run[i]) <= Version(run[j])
          && (Version(run[i]) == Version(run[j]) ==> SamePrefixes(run[i], run[j])))
  }

  /** `accepted` is at or beyond everything in `run`. */
  ghost predicate Beyond(run: seq<Candidate>, accepted: Option<Candidate>) {
    && Monotone(run)
    && (accepted.None? ==> run == [])
    && (forall i :: 0 <= i < |run| ==> AdmitSuccessor(Some(run[i]), accepted.value))
  }

  lemma BeyondExtends(run: seq<Candidate>, accepted: Option<Candidate>, candidate: Candidate)
    requires Beyond(run, accepted) && AdmitSuccessor(accepted, candidate)
    ensures Beyond(run, Some(candidate)) && Beyond(run + [candidate], Some(candidate))
  {
    var after := run + [candidate];
    forall i | 0 <= i < |run| ensures AdmitSuccessor(Some(run[i]), candidate) {
      assert AdmitSuccessor(Some(run[i]), accepted.value);
    }
    forall i, j | 0 <= i < j < |after|
      ensures Version(after[i]) <= Version(after[j])
      ensures Version(after[i]) == Version(after[j]) ==> SamePrefixes(after[i], after[j])
    {
      assert AdmitSuccessor(Some(run[i]), candidate);
    }
  }

  /** The operator's state directory. `durable` is what a power loss would leave accepted. */
  class Store {
    var candidate: Option<Candidate>
    var accepted: Option<Candidate>
    var durable: Option<Candidate>

    /** The acceptances that were confirmed, oldest first. */
    ghost var history: seq<Candidate>

    ghost predicate Valid()
      reads this
    {
      Beyond(history, accepted) && Beyond(history, durable)
    }

    constructor ()
      ensures Valid() && history == []
    {
      candidate, accepted, durable, history := None, None, None, [];
    }

    /** `fate` is how the write of candidate.json ends. */
    method WriteCandidate(c: Candidate, fate: Written) returns (ok: bool)
      requires Valid()
      modifies this
      ensures Valid() && accepted == old(accepted) && durable == old(durable) && history == old(history)
      ensures ok <==> ValidCandidate(c) && fate == Confirmed
      ensures candidate == if ValidCandidate(c) && fate != Unwritten then Some(c) else old(candidate)
    {
      if !ValidCandidate(c) {
        return false;
      }
      if fate != Unwritten {
        candidate := Some(c);
      }
      ok := fate == Confirmed;
    }

    /** What an acceptance is admitted on: a valid candidate, a successor, and the one acknowledged. */
    predicate Acceptable(acknowledged: Digest)
      reads this
    {
      candidate.Some? && AdmitSuccessor(accepted, candidate.value) && candidate.value.digest == acknowledged
    }

    /** Promote the current candidate, and only the one acknowledged by digest. */
    method AcceptCandidate(acknowledged: Digest, fate: Written) returns (ok: bool)
      requires Valid()
      modifies this
      ensures Valid() && candidate == old(candidate)
      ensures ok <==> old(Acceptable(acknowledged)) && fate == Confirmed
      ensures accepted == if old(Acceptable(acknowledged)) && fate != Unwritten then candidate else old(accepted)
      ensures ok ==> history == old(history) + [candidate.value] && durable == accepted
      ensures ok ==> candidate.value.material == acknowledged.preimage
      ensures !ok ==> history == old(history) && durable == old(durable)
    {
      if candidate.None? || !ValidCandidate(candidate.value) || !AdmitSuccessor(accepted, candidate.value) {
        return false;
      }
      if candidate.value.digest != acknowledged {
        return false;
      }
      if fate != Unwritten {
        BeyondExtends(history, accepted, candidate.value);
        accepted := candidate;
      }
      if fate == Confirmed {
        durable := accepted;
        history := history + [candidate.value];
      }
      ok := fate == Confirmed;
    }

    /** A restart may forget an acceptance whose durability was never confirmed. */
    method PowerLoss()
      requires Valid()
      modifies this
      ensures Valid() && history == old(history)
      ensures accepted == old(accepted) || accepted == old(durable)
    {
      var kept: bool := *;
      if !kept {
        accepted := durable;
      }
      durable := accepted;
    }
  }
}
