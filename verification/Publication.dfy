/**
  Crash-safe publication of one serving file (scripts/haproxy_config_lifecycle.py).

  The disk is recorded after every step, so that a crash between any two steps is
  a choice of one recorded snapshot and of how much of it had reached the disk.
 */
module Publication {
  import opened Common
  import opened DurableDirectory

  const MAX_CONFIG_BYTES := 65536
  const MAX_JOURNAL_BYTES := 1024
  const MODE_PUBLIC := 292   // 0o444
  const MODE_PRIVATE := 384  // 0o600

  datatype Disk = Disk(serving: Directory, journal: Directory)

  /**
    What a restart may make of a disk: `base` is what was accepted before,
    `activated` the contents whose reload has been acknowledged since, and
    `restorable` the predecessors a journal may name.
   */
  datatype Ledger = Ledger(base: set<Option<Content>>, activated: seq<Content>, restorable: set<Option<Content>>)
  {
    predicate Accepts(content: Option<Content>) {
      content in base || (content.Some? && content.value in activated)
    }

    /** Grown from `this` no further than `upper`. */
    ghost predicate Spans(upper: Ledger, l: Ledger) {
      && l.base == base
      && activated <= l.activated <= upper.activated
      && restorable <= l.restorable <= upper.restorable
    }
  }

  /** The disk at one step, with the ledger of that moment. */
  datatype Snapshot = Snapshot(disk: Disk, ledger: Ledger)

  function DigestOf(content: Option<Content>): Option<Digest> {
    if content.None? then None else Some(Sha256(content.value))
  }

  predicate AdmittedRecord(content: Content) {
    content.Record? && content.candidate.Some?
  }

  /** The journal names `target` as predecessor and its backup is at hand. */
  predicate Restores(names: Names, target: Option<Content>) {
    && Journal in names
    && AdmittedRecord(names[Journal])
    && names[Journal].previous == DigestOf(target)
    && (target.Some? ==> Get(names, Backup) == target && Size(target.value) <= MAX_CONFIG_BYTES)
  }

  /** The predecessor a journal asks for, or None when the journal has to be refused. */
  function Target(names: Names): (target: Option<Option<Content>>)
    requires Journal in names
    ensures target.Some? <==> exists t :: Restores(names, t)
    ensures target.Some? ==> Restores(names, target.value)
  {
    var record := names[Journal];
    if !AdmittedRecord(record) then None
    else if record.previous.None? then assert Restores(names, None); Some(None)
    else if Backup !in names || Size(names[Backup]) > MAX_CONFIG_BYTES
            || Sha256(names[Backup]) != record.previous.value then None
    else assert Restores(names, Some(names[Backup])); Some(Some(names[Backup]))
  }

  lemma RestoresUnique(names: Names, a: Option<Content>, b: Option<Content>)
    requires Restores(names, a) && Restores(names, b)
    ensures a == b
  {
    assert DigestOf(a) == DigestOf(b);
  }

  ghost predicate Recoverable(names: Names, restorable: set<Option<Content>>) {
    exists target :: target in restorable && Restores(names, target)
  }

  /** Whatever a crash keeps: a surviving journal is recoverable, and without one the served content is accepted. */
  ghost predicate Sound(s: Snapshot) {
    && (forall t :: t in s.ledger.restorable ==> s.ledger.Accepts(t))
    && (forall j: nat :: j <= |s.disk.journal.pending| && Journal in s.disk.journal.Image(j) ==>
          Recoverable(s.disk.journal.Image(j), s.ledger.restorable))
    && (forall i: nat, j: nat ::
          i <= |s.disk.serving.pending| && j <= |s.disk.journal.pending| && Journal !in s.disk.journal.Image(j) ==>
            s.ledger.Accepts(Get(s.disk.serving.Image(i), Serving)))
  }

  ghost predicate AllServingAccepted(s: Snapshot) {
    forall i: nat :: i <= |s.disk.serving.pending| ==> s.ledger.Accepts(Get(s.disk.serving.Image(i), Serving))
  }

  ghost predicate JournalHeld(d: Directory) {
    forall j: nat :: j <= |d.pending| ==> Journal in d.Image(j)
  }

  function QueueServing(s: Snapshot, op: Op): Snapshot {
    s.(disk := s.disk.(serving := s.disk.serving.Queue(op)))
  }

  function QueueJournal(s: Snapshot, op: Op): Snapshot {
    s.(disk := s.disk.(journal := s.disk.journal.Queue(op)))
  }

  /** The serving name may change only to accepted content, or while every crash keeps the journal. */
  lemma ServingStep(s: Snapshot, op: Op)
    requires Sound(s)
    requires JournalHeld(s.disk.journal) || s.ledger.Accepts(Get(Apply(s.disk.serving.Visible(), op), Serving))
    ensures Sound(QueueServing(s, op))
  {
    var s' := QueueServing(s, op);
    forall i: nat, j: nat |
      i <= |s'.disk.serving.pending| && j <= |s'.disk.journal.pending| && Journal !in s'.disk.journal.Image(j)
      ensures s'.ledger.Accepts(Get(s'.disk.serving.Image(i), Serving))
    {
      QueueImage(s.disk.serving, op, i);
    }
  }

  /** A journal-directory step is sound when the directory it leaves is. */
  lemma JournalStep(s: Snapshot, op: Op)
    requires Sound(s)
    requires
      var after := Apply(s.disk.journal.Visible(), op);
      if Journal in after then Recoverable(after, s.ledger.restorable) else AllServingAccepted(s)
    ensures Sound(QueueJournal(s, op))
  {
    var s' := QueueJournal(s, op);
    forall j: nat | j <= |s'.disk.journal.pending|
      ensures Journal in s'.disk.journal.Image(j) ==> Recoverable(s'.disk.journal.Image(j), s'.ledger.restorable)
      ensures Journal !in s'.disk.journal.Image(j) ==>
        forall i: nat :: i <= |s'.disk.serving.pending| ==> s'.ledger.Accepts(Get(s'.disk.serving.Image(i), Serving))
    {
      QueueImage(s.disk.journal, op, j);
    }
  }

  /** An absent journal already obliges every serving image to be accepted. */
  lemma WithoutJournal(s: Snapshot)
    requires Sound(s)
    requires Journal !in s.disk.journal.Visible()
    ensures AllServingAccepted(s)
    ensures s.ledger.Accepts(Get(s.disk.serving.Visible(), Serving))
  {
    assert Journal !in s.disk.journal.Image(|s.disk.journal.pending|);
  }

  lemma SyncSound(s: Snapshot)
    requires Sound(s)
    ensures Sound(s.(disk := s.disk.(serving := s.disk.serving.Synced())))
    ensures Sound(s.(disk := s.disk.(journal := s.disk.journal.Synced())))
  {
    var a := s.(disk := s.disk.(serving := s.disk.serving.Synced()));
    var b := s.(disk := s.disk.(journal := s.disk.journal.Synced()));
    assert a.disk.serving.Image(0) == s.disk.serving.Image(|s.disk.serving.pending|);
    assert b.disk.journal.Image(0) == s.disk.journal.Image(|s.disk.journal.pending|);
  }

  lemma RestorableGrows(s: Snapshot, target: Option<Content>)
    requires Sound(s) && s.ledger.Accepts(target)
    ensures Sound(s.(ledger := s.ledger.(restorable := s.ledger.restorable + {target})))
  {
    forall j: nat | j <= |s.disk.journal.pending| && Journal in s.disk.journal.Image(j)
      ensures Recoverable(s.disk.journal.Image(j), s.ledger.restorable + {target})
    {
      var t :| t in s.ledger.restorable && Restores(s.disk.journal.Image(j), t);
      assert t in s.ledger.restorable + {target};
    }
  }

  /** What a power loss leaves: a prefix of each directory's pending operations. */
  function Crashed(s: Snapshot, i: nat, j: nat): Disk
    requires i <= |s.disk.serving.pending| && j <= |s.disk.journal.pending|
  {
    Disk(Directory(s.disk.serving.Image(i), []), Directory(s.disk.journal.Image(j), []))
  }

  /** The one content a restart can come to on a surviving disk: what its journal restores, or what it serves. */
  function Survivor(d: Disk): Option<Option<Content>> {
    var names := d.journal.Visible();
    if Journal in names then Target(names) else Some(Get(d.serving.Visible(), Serving))
  }

  /**
    Every crash of a sound snapshot leaves a disk whose journal is readable or absent. Either way it
    stands for one accepted content, and is itself sound for that content alone.
   */
  lemma EveryCrashHandled(s: Snapshot, i: nat, j: nat)
    requires Sound(s) && i <= |s.disk.serving.pending| && j <= |s.disk.journal.pending|
    ensures var d := Crashed(s, i, j);
      && Survivor(d).Some? && s.ledger.Accepts(Survivor(d).value)
      && (Journal in d.journal.Visible() ==> Survivor(d).value in s.ledger.restorable)
      && Sound(Snapshot(d, Ledger({Survivor(d).value}, [], {Survivor(d).value})))
  {
    var d := Crashed(s, i, j);
    var names := d.journal.Visible();
    assert names == s.disk.journal.Image(j) && d.serving.Visible() == s.disk.serving.Image(i);
    if Journal in names {
      var t :| t in s.ledger.restorable && Restores(names, t);
      RestoresUnique(names, t, Target(names).value);
      assert Recoverable(names, {t});
    }
  }

  /**
    Without a journal the same exchange is not sound: between the rename and the
    reload a crash can leave a candidate nobody activated.
   */
  lemma ExchangeNeedsJournal(previous: Option<Content>, data: Content)
    requires previous != Some(data)
    ensures
      var serving := Directory(if previous.None? then map[] else map[Serving := previous.value], []);
      var s := Snapshot(Disk(serving, Directory(map[], [])), Ledger({previous}, [], {}));
      Sound(s) && !Sound(QueueServing(s, Link(Serving, data)))
  {
    var serving := Directory(if previous.None? then map[] else map[Serving := previous.value], []);
    var s := Snapshot(Disk(serving, Directory(map[], [])), Ledger({previous}, [], {}));
    var after := QueueServing(s, Link(Serving, data));
    assert Get(after.disk.serving.Image(1), Serving) == Some(data) by {
      QueueImage(serving, Link(Serving, data), 1);
    }
    assert Journal !in after.disk.journal.Image(0);
  }
}
