/**
  What the certificate renewal relies on when it publishes, derived from the publisher that works on directories
  (scripts/direct-viewer-tls.py, scripts/haproxy_config_lifecycle.py). `encode` gives a certificate's bytes.
 */
module ViewerPublication {
  import opened Common
  import opened DurableDirectory
  import opened Publication
  import Publisher
  import Viewer = ViewerTls

  type Encoding = Viewer.Pem -> Content

  function Served(d: Disk): Option<Content> {
    Get(d.serving.Visible(), Serving)
  }

  /** The journal on the disk, with its backup, as the renewal sees it. */
  ghost predicate ShowsJournal(d: Disk, encode: Encoding, journal: Option<Viewer.Record>, backup: Option<Viewer.Pem>) {
    var names := d.journal.Visible();
    && (Journal in names <==> journal.Some?)
    && (journal.Some? ==>
          && AdmittedRecord(names[Journal]) && journal.value.previous.Some? && backup.Some?
          && names[Journal].previous == Some(Sha256(encode(journal.value.previous.value.preimage)))
          && Get(names, Backup) == Some(encode(backup.value)))
  }

  /**
    The disk is one that a publication of `data` over `previous` may end with, as far as the renewal can see.
    What is served beside a journal only counts once publish has returned: recovery replaces it.
   */
  ghost predicate Ends(d: Disk, encode: Encoding, previous: Viewer.Pem, data: Viewer.Pem, fate: Viewer.Fate) {
    exists serving: Viewer.Pem, journal: Option<Viewer.Record>, backup: Option<Viewer.Pem> ::
      && ShowsJournal(d, encode, journal, backup)
      && ((fate.Stopped? && journal.Some?) || Served(d) == Some(encode(serving)))
      && Viewer.PublicationEnds(previous, data, fate, Some(serving), journal, backup)
  }

  lemma EndsWithJournal(d: Disk, encode: Encoding, previous: Viewer.Pem, data: Viewer.Pem, fate: Viewer.Fate)
    requires Restores(d.journal.Visible(), Some(encode(previous))) && !fate.Done?
    requires fate.Failed? ==> Served(d) == Some(encode(previous))
    ensures Ends(d, encode, previous, data, fate)
  {
    var journal := Some(Viewer.Record(Some(Viewer.Sha256(previous)), Viewer.Sha256(data)));
    assert ShowsJournal(d, encode, journal, Some(previous));
    assert Viewer.PublicationEnds(previous, data, fate, Some(previous), journal, Some(previous));
  }

  lemma EndsWithoutJournal(d: Disk, encode: Encoding, previous: Viewer.Pem, data: Viewer.Pem, fate: Viewer.Fate)
    requires Journal !in d.journal.Visible()
    requires Served(d) == Some(encode(data)) || (Served(d) == Some(encode(previous)) && !fate.Done?)
    ensures Ends(d, encode, previous, data, fate)
  {
    var serving := if Served(d) == Some(encode(data)) then data else previous;
    assert ShowsJournal(d, encode, None, None);
    assert Viewer.PublicationEnds(previous, data, fate, Some(serving), None, None);
  }

  /** Cut off at any snapshot, with whatever part of its unsynced operations a power loss keeps. */
  lemma EndsCutOff(s: Snapshot, i: nat, j: nat, encode: Encoding, previous: Viewer.Pem, data: Viewer.Pem)
    requires Sound(s) && i <= |s.disk.serving.pending| && j <= |s.disk.journal.pending|
    requires s.ledger.base == {Some(encode(previous))} && s.ledger.activated <= [encode(data)]
    requires s.ledger.restorable <= {Some(encode(previous))}
    ensures Ends(Crashed(s, i, j), encode, previous, data, Viewer.Stopped)
  {
    hide Sound;
    EveryCrashHandled(s, i, j);
    var d := Crashed(s, i, j);
    if Journal in d.journal.Visible() {
      assert Survivor(d).value == Some(encode(previous));
      EndsWithJournal(d, encode, previous, data, Viewer.Stopped);
    } else {
      assert s.ledger.Accepts(Served(d));
      EndsWithoutJournal(d, encode, previous, data, Viewer.Stopped);
    }
  }

  /**
    Every end of a publication over a served predecessor is one the renewal reckons with: when publish returns
    after at most one failed step, and when the process or the power goes at any step.
   */
  method Publish(p: Publisher.Publisher, ghost encode: Encoding, ghost previous: Viewer.Pem, data: Content,
                 ghost certificate: Viewer.Pem) returns (fate: Viewer.Fate)
    requires p.Valid() && p.guarded && data == encode(certificate)
    requires p.Live() == Some(encode(previous)) && !p.JournalVisible() && p.ledger == Ledger({p.Live()}, [], {})
    modifies p
    ensures p.Valid() && !fate.Stopped?
    ensures p.faults <= old(p.faults) + 1 ==> Ends(p.disk, encode, previous, certificate, fate)
    ensures p.faults == old(p.faults) && old(p.Admissible(data, MODE_PRIVATE, false)) ==> fate.Done?
    ensures forall k, i: nat, j: nat ::
      (&& |old(p.trace)| <= k < |p.trace|
       && i <= |p.trace[k].disk.serving.pending| && j <= |p.trace[k].disk.journal.pending|) ==>
        Ends(Crashed(p.trace[k], i, j), encode, previous, certificate, Viewer.Stopped)
  {
    hide Sound, Restores, Replay, Ends;
    var outcome;
    ghost var early;
    outcome, early := p.Publish(data, MODE_PRIVATE, false);
    fate := if outcome.Returned? then Viewer.Done else Viewer.Failed;
    if p.faults <= old(p.faults) + 1 {
      if p.JournalVisible() {
        EndsWithJournal(p.disk, encode, previous, certificate, fate);
      } else {
        EndsWithoutJournal(p.disk, encode, previous, certificate, fate);
      }
    }
    forall k, i: nat, j: nat |
      && |old(p.trace)| <= k < |p.trace|
      && i <= |p.trace[k].disk.serving.pending| && j <= |p.trace[k].disk.journal.pending|
      ensures Ends(Crashed(p.trace[k], i, j), encode, previous, certificate, Viewer.Stopped)
    {
      EndsCutOff(p.trace[k], i, j, encode, previous, certificate);
    }
  }
}
