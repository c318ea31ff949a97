/**
  `publish` and `recover_publication` as the steps they take on disk. Every step
  may fail; the failure is the environment's choice.
 */
module Publisher {
  import opened Common
  import opened DurableDirectory
  import opened Publication

  datatype Outcome =
    | Returned(value: Option<bool>)
    | Refused
    | Raised

  /** What may be asked of it, over and over. */
  datatype Request = PublishRequest(data: Content, initial: bool) | RecoverRequest

  datatype Side = ServingSide | JournalSide

  function PublicationRecord(previous: Option<Content>, data: Content): Content {
    Record(DigestOf(previous), Some(Sha256(data)))
  }

  function Tokens(token: Option<nat>): set<nat> {
    if token.Some? then {token.value} else {}
  }

  class Publisher {
    /** Whether a journal pathname was given. */
    const journalled: bool
    /** Whether the disk it started from was sound; a damaged journal may be met otherwise. */
    ghost const guarded: bool

    var disk: Disk
    var staged: map<nat, Content>
    var serial: nat
    var ledger: Ledger

    /** The disk after every step, from which a crash picks. */
    var trace: seq<Snapshot>

    /** Steps that failed. */
    ghost var faults: nat

    /** Every content whose reload has succeeded, crashes notwithstanding. */
    ghost var reloads: set<Content>

    /** The trace when the current operation began, and how far its ledger may grow. */
    ghost var past: seq<Snapshot>
    ghost var lower: Ledger
    ghost var upper: Ledger

    ghost predicate Whole()
      reads `staged, `serial, `ledger, `trace, `past, `lower, `upper, `reloads
    {
      && (guarded ==> journalled)
      && (forall token :: token in staged ==> token < serial)
      && (guarded ==> forall k :: 0 <= k < |trace| ==> Sound(trace[k]))
      && past <= trace
      && lower.Spans(upper, ledger)
      && (forall k :: |past| <= k < |trace| ==> lower.Spans(upper, trace[k].ledger))
      && Acknowledged(ledger) && (forall k :: |past| <= k < |trace| ==> Acknowledged(trace[k].ledger))
    }

    /** What the current operation has accepted since it began was reloaded. */
    ghost predicate Acknowledged(l: Ledger)
      reads `lower, `reloads
    {
      forall c :: c in l.activated ==> c in lower.activated || c in reloads
    }

    /** Every disk the publication has passed through is safe to crash on. */
    ghost predicate Valid()
      reads `disk, `staged, `serial, `ledger, `trace, `past, `lower, `upper, `reloads
    {
      Whole() && (guarded ==> Sound(Snapshot(disk, ledger)))
    }

    function Now(): Snapshot
      reads `disk, `ledger
    {
      Snapshot(disk, ledger)
    }

    ghost function Live(): Option<Content>
      reads `disk
    {
      Get(disk.serving.Visible(), Serving)
    }

    ghost predicate JournalVisible()
      reads `disk
    {
      Journal in disk.journal.Visible()
    }

    constructor (journalled: bool, disk: Disk, ledger: Ledger)
      ensures Valid()
      ensures this.journalled == journalled && guarded == (journalled && Sound(Snapshot(disk, ledger)))
      ensures this.disk == disk && this.ledger == ledger
      ensures trace == [] && staged == map[] && faults == 0 && reloads == {}
    {
      this.journalled, this.guarded := journalled, journalled && Sound(Snapshot(disk, ledger));
      this.disk, this.ledger := disk, ledger;
      staged, serial, trace, faults, reloads := map[], 0, [], 0, {};
      past, lower, upper := [], ledger, ledger;
    }

    // ---------- The steps ----------

    /** Write, sync and prepare a private file; a failed one is unlinked again. */
    method Stage(content: Content) returns (ok: bool, token: nat)
      requires Valid()
      modifies `staged, `serial, `faults
      ensures Valid()
      ensures ok ==> token !in old(staged) && staged == old(staged)[token := content] && faults == old(faults)
      ensures !ok ==> staged == old(staged) && faults == old(faults) + 1
    {
      ok, token := *, serial;
      if ok {
        staged, serial := staged[token := content], serial + 1;
      } else {
        faults := faults + 1;
      }
    }

    /** os.replace of a staged file onto a name of its own directory. */
    method Rename(token: nat, name: Name) returns (ok: bool)
      requires Valid() && token in staged
      requires guarded && name == Serving ==> Sound(QueueServing(Now(), Link(name, staged[token])))
      requires guarded && name != Serving ==> Sound(QueueJournal(Now(), Link(name, staged[token])))
      modifies `disk, `staged, `trace, `faults
      ensures Valid()
      ensures ok && name == Serving ==>
        disk == old(disk).(serving := old(disk).serving.Queue(Link(name, old(staged)[token])))
      ensures ok && name != Serving ==>
        disk == old(disk).(journal := old(disk).journal.Queue(Link(name, old(staged)[token])))
      ensures ok ==> staged == old(staged) - {token} && faults == old(faults)
      ensures !ok ==> disk == old(disk) && staged == old(staged) && faults == old(faults) + 1
    {
      ok := *;
      if ok {
        if name == Serving {
          disk := disk.(serving := disk.serving.Queue(Link(name, staged[token])));
        } else {
          disk := disk.(journal := disk.journal.Queue(Link(name, staged[token])));
        }
        staged := staged - {token};
        trace := trace + [Now()];
      } else {
        faults := faults + 1;
      }
    }

    /** unlink(missing_ok=True). */
    method Remove(name: Name) returns (ok: bool)
      requires Valid()
      requires guarded && name == Serving ==> Sound(QueueServing(Now(), Unlink(name)))
      requires guarded && name != Serving ==> Sound(QueueJournal(Now(), Unlink(name)))
      modifies `disk, `trace, `faults
      ensures Valid()
      ensures ok && name == Serving ==> disk == old(disk).(serving := old(disk).serving.Queue(Unlink(name)))
      ensures ok && name != Serving ==> disk == old(disk).(journal := old(disk).journal.Queue(Unlink(name)))
      ensures ok ==> faults == old(faults)
      ensures !ok ==> disk == old(disk) && faults == old(faults) + 1
    {
      ok := *;
      if ok {
        if name == Serving {
          disk := disk.(serving := disk.serving.Queue(Unlink(name)));
        } else {
          disk := disk.(journal := disk.journal.Queue(Unlink(name)));
        }
        trace := trace + [Now()];
      } else {
        faults := faults + 1;
      }
    }

    /** fsync of a directory. A failed one promises nothing about what is durable. */
    method Sync(side: Side) returns (ok: bool)
      requires Valid()
      modifies `disk, `trace, `faults
      ensures Valid()
      ensures ok && side == ServingSide ==> disk == old(disk).(serving := old(disk).serving.Synced())
      ensures ok && side == JournalSide ==> disk == old(disk).(journal := old(disk).journal.Synced())
      ensures ok ==> faults == old(faults)
      ensures !ok ==> disk == old(disk) && faults == old(faults) + 1
    {
      ok := *;
      if ok {
        if guarded {
          SyncSound(Now());
        }
        if side == ServingSide {
          disk := disk.(serving := disk.serving.Synced());
        } else {
          disk := disk.(journal := disk.journal.Synced());
        }
        trace := trace + [Now()];
      } else {
        faults := faults + 1;
      }
    }

    /** Drop a staged file that was not published. */
    method Discard(token: nat) returns (ok: bool)
      requires Valid()
      modifies `staged, `faults
      ensures Valid()
      ensures ok ==> staged == old(staged) - {token} && faults == old(faults)
      ensures !ok ==> staged == old(staged) && faults == old(faults) + 1
    {
      ok := *;
      if ok {
        staged := staged - {token};
      } else {
        faults := faults + 1;
      }
    }

    /** A reviewed callback other than the activating reload: validate, prepare, recover. */
    method Callback() returns (ok: bool)
      modifies `faults
      ensures faults == old(faults) + if ok then 0 else 1
    {
      ok := *;
      if !ok {
        faults := faults + 1;
      }
    }

    /** The reload that activates `content`; its success is what accepts the content. */
    method Reload(content: Content) returns (ok: bool)
      requires Valid() && Live() == Some(content)
      requires ledger.activated + [content] == upper.activated
      modifies `ledger, `faults, `trace, `reloads
      ensures Valid()
      ensures ok ==> ledger == old(ledger).(activated := upper.activated) && faults == old(faults)
      ensures !ok ==> ledger == old(ledger) && faults == old(faults) + 1
      ensures reloads == old(reloads) + if ok then {content} else {}
    {
      ok := *;
      if ok {
        ledger, reloads := ledger.(activated := ledger.activated + [content]), reloads + {content};
        trace := trace + [Now()];
      } else {
        faults := faults + 1;
      }
    }

    /** Stage a file and move it onto a name of the journal directory. */
    method Save(content: Content, name: Name) returns (ok: bool)
      requires Valid() && name != Serving
      requires guarded ==> Sound(QueueJournal(Now(), Link(name, content)))
      modifies `disk, `staged, `serial, `trace, `faults
      ensures Valid()
      ensures faults == old(faults) + if ok then 0 else 1
      ensures ok ==> disk == old(disk).(journal := old(disk).journal.Queue(Link(name, content)))
      ensures ok ==> staged == old(staged)
      ensures !ok ==> disk == old(disk)
    {
      var saved;
      ok, saved := Stage(content);
      if ok {
        ok := Rename(saved, name);
        if ok {
          assert staged == old(staged)[saved := content] - {saved} == old(staged);
        }
      }
    }

    /** Withdraw a name of the journal directory and make that durable. */
    method Withdraw(name: Name) returns (ok: bool)
      requires Valid() && name != Serving
      requires guarded ==> Sound(QueueJournal(Now(), Unlink(name)))
      modifies `disk, `trace, `faults
      ensures Valid()
      ensures disk.serving == old(disk).serving
      ensures ok ==> disk.journal.Visible() == old(disk).journal.Visible() - {name} && disk.journal.pending == []
      ensures faults == old(faults) + if ok then 0 else 1
      ensures disk.journal.Visible() == old(disk).journal.Visible()
           || disk.journal.Visible() == old(disk).journal.Visible() - {name}
    {
      ok := Remove(name);
      if ok {
        ok := Sync(JournalSide);
      }
    }

    /** Withdraw the journal record, once the serving name is durable and accepted. */
    method WithdrawRecord() returns (ok: bool)
      requires Valid() && journalled && disk.serving.pending == []
      requires guarded ==> ledger.Accepts(Live())
      modifies `disk, `trace, `faults
      ensures Valid()
      ensures disk.serving == old(disk).serving
      ensures ok ==> disk.journal.Visible() == old(disk).journal.Visible() - {Journal} && disk.journal.pending == []
      ensures faults == old(faults) + if ok then 0 else 1
      ensures disk.journal.Visible() == old(disk).journal.Visible()
           || disk.journal.Visible() == old(disk).journal.Visible() - {Journal}
    {
      hide Whole;
      if guarded { JournalStep(Now(), Unlink(Journal)); }
      ok := Withdraw(Journal);
    }

    // ---------- Recovery ----------

    /** Put the predecessor back and make that durable. */
    method Reinstate(target: Option<Content>) returns (ok: bool)
      requires Valid() && (guarded ==> ledger.Accepts(target))
      modifies `disk, `staged, `serial, `trace, `faults
      ensures Valid()
      ensures disk.journal == old(disk).journal
      ensures ok ==> Live() == target && disk.serving.pending == []
      ensures faults == old(faults) + if ok then 0 else 1
    {
      if target.None? {
        if guarded { ServingStep(Now(), Unlink(Serving)); }
        ok := Remove(Serving);
      } else {
        var candidate;
        ok, candidate := Stage(target.value);
        if !ok { return; }
        if guarded { ServingStep(Now(), Link(Serving, target.value)); }
        ok := Rename(candidate, Serving);
      }
      if ok {
        ok := Sync(ServingSide);
      }
    }

    /** What the visible journal asks to be restored; None when it has to be refused. */
    method ReadJournal() returns (target: Option<Option<Content>>)
      requires Valid() && JournalVisible()
      ensures target == Target(disk.journal.Visible())
      ensures guarded ==> target.Some? && target.value in ledger.restorable && ledger.Accepts(target.value)
    {
      var names := disk.journal.Visible();
      if guarded {
        ghost var known :| known in ledger.restorable && Restores(names, known);
      }
      var record := names[Journal];
      if Size(record) > MAX_JOURNAL_BYTES || !AdmittedRecord(record) {
        return None;
      }
      if record.previous.None? {
        return Some(None);
      }
      if Backup !in names || Size(names[Backup]) > MAX_CONFIG_BYTES || Sha256(names[Backup]) != record.previous.value {
        return None;
      }
      return Some(Some(names[Backup]));
    }

    /** Once the serving name is durable, the journal goes first and its backup second. */
    method Retire() returns (ok: bool)
      requires Valid() && journalled && disk.serving.pending == []
      requires guarded ==> ledger.Accepts(Live())
      modifies `disk, `trace, `faults
      ensures Valid()
      ensures disk.serving == old(disk).serving
      ensures faults == old(faults) + if ok then 0 else 1
      ensures ok ==> disk.journal.pending == []
      ensures ok ==> disk.journal.Visible() == old(disk).journal.Visible() - {Journal} - {Backup}
    {
      hide Whole;
      ok := WithdrawRecord();
      if ok {
        if guarded {
          WithoutJournal(Now());
          JournalStep(Now(), Unlink(Backup));
        }
        ok := Withdraw(Backup);
      }
    }

    /**
      Restore the journalled predecessor, compensate the live service, and only
      then withdraw the journal. Interrupting it anywhere leaves a sound disk.
     */
    method RecoverPublication() returns (outcome: Outcome)
      requires Valid() && journalled
      modifies `disk, `staged, `serial, `trace, `faults, `past, `lower, `upper
      ensures Valid()
      ensures past == old(trace) && lower == upper == ledger
      ensures outcome == Returned(Some(false)) <==> !old(JournalVisible())
      ensures !old(JournalVisible()) ==> disk == old(disk)
      // A journal that cannot be authenticated is refused and nothing is touched.
      ensures outcome == Refused <==> old(JournalVisible()) && Target(old(disk).journal.Visible()).None?
      ensures outcome == Refused ==> disk == old(disk) && !guarded
      ensures outcome.Returned? && old(JournalVisible()) ==>
        && outcome == Returned(Some(true))
        && Restores(old(disk).journal.Visible(), Live()) && (guarded ==> Live() in ledger.restorable)
        && disk.serving.pending == [] && disk.journal.pending == []
        && Journal !in disk.journal.Visible() && Backup !in disk.journal.Visible()
      ensures faults == old(faults) <==> outcome != Raised
    {
      hide Sound, Replay;
      past, lower, upper := trace, ledger, ledger;
      if Journal !in disk.journal.Visible() {
        return Returned(Some(false));
      }
      var target := ReadJournal();
      if target.None? {
        return Refused;
      }
      var ok := Reinstate(target.value);
      if !ok { return Raised; }
      ok := Callback();
      if !ok { return Raised; }
      ok := Retire();
      return if ok then Returned(Some(true)) else Raised;
    }

    // ---------- Publication ----------

    /** The visible journal, if any, gives `previous` back. */
    ghost predicate Keeps(previous: Option<Content>)
      reads `disk
    {
      journalled && JournalVisible() ==> Restores(disk.journal.Visible(), previous)
    }

    /** The saved predecessor a journal record can point to. */
    ghost predicate BackedUp(previous: Option<Content>)
      reads `disk, `ledger
    {
      && (guarded ==> previous in ledger.restorable)
      && (journalled && previous.Some? ==>
            Get(disk.journal.Visible(), Backup) == previous && Size(previous.value) <= MAX_CONFIG_BYTES)
    }

    ghost predicate Staged(token: Option<nat>, content: Option<Content>)
      reads `staged
    {
      && token.Some? == content.Some?
      && (token.Some? ==> token.value in staged && staged[token.value] == content.value)
    }

    /** Write the record that names `previous`, whose backup is already in place. */
    method SaveRecord(previous: Option<Content>, data: Content) returns (ok: bool)
      requires Valid() && journalled && BackedUp(previous)
      modifies `disk, `staged, `serial, `trace, `faults
      ensures Valid() && BackedUp(previous)
      ensures disk.serving == old(disk).serving
      ensures Restores(disk.journal.Visible(), previous) || disk == old(disk)
      ensures ok ==> Restores(disk.journal.Visible(), previous) && disk.journal.pending == []
      ensures ok ==> staged == old(staged)
      ensures faults == old(faults) + if ok then 0 else 1
    {
      var record := PublicationRecord(previous, data);
      assert Restores(Apply(disk.journal.Visible(), Link(Journal, record)), previous);
      if guarded { JournalStep(Now(), Link(Journal, record)); }
      ok := Save(record, Journal);
      if ok {
        ok := Sync(JournalSide);
      }
    }

    /** Save the predecessor, then the record that names it, and make both durable. */
    method WriteJournal(previous: Option<Content>, data: Content) returns (ok: bool)
      requires Valid() && journalled && !JournalVisible() && Live() == previous
      requires previous.Some? ==> Size(previous.value) <= MAX_CONFIG_BYTES
      requires ledger.restorable + {previous} == upper.restorable
      modifies `disk, `staged, `serial, `ledger, `trace, `faults
      ensures Valid() && Keeps(previous)
      ensures disk.serving == old(disk).serving
      ensures ledger.activated == old(ledger).activated
      ensures faults == old(faults) + if ok then 0 else 1
      ensures ok ==> staged == old(staged) && BackedUp(previous)
      ensures ok ==> disk.journal.pending == [] && Restores(disk.journal.Visible(), previous)
    {
      if guarded { WithoutJournal(Now()); }
      if previous.Some? {
        if guarded { JournalStep(Now(), Link(Backup, previous.value)); }
        ok := Save(previous.value, Backup);
        if !ok { return; }
      }
      if guarded { RestorableGrows(Now(), previous); }
      ledger := ledger.(restorable := ledger.restorable + {previous});
      ok := SaveRecord(previous, data);
    }

    /** The serving name goes back to the staged predecessor, or away when there was none. */
    method RollBack(rollback: Option<nat>, previous: Option<Content>) returns (ok: bool)
      requires Valid() && Staged(rollback, previous)
      requires guarded ==> ledger.Accepts(previous)
      modifies `disk, `staged, `trace, `faults
      ensures Valid()
      ensures disk.journal == old(disk).journal
      ensures faults == old(faults) + if ok then 0 else 1
      ensures ok ==> Live() == previous
    {
      if rollback.Some? {
        if guarded { ServingStep(Now(), Link(Serving, previous.value)); }
        ok := Rename(rollback.value, Serving);
      } else {
        if guarded { ServingStep(Now(), Unlink(Serving)); }
        ok := Remove(Serving);
      }
    }

    /**
      After a failed activation: put the predecessor back, keep or re-create the
      journal before the compensating reload, and withdraw it only if every step worked.
     */
    method Compensate(rollback: Option<nat>, previous: Option<Content>, data: Content)
      requires Valid() && Keeps(previous) && BackedUp(previous) && Staged(rollback, previous)
      modifies `disk, `staged, `serial, `trace, `faults
      ensures Valid() && Keeps(previous)
      ensures faults >= old(faults)
      ensures faults == old(faults) ==> Live() == previous && (journalled ==> !JournalVisible())
    {
      assert guarded ==> ledger.Accepts(previous);
      hide Valid, Whole, Sound, Restores, Replay, Target, AdmittedRecord;
      var ok := RollBack(rollback, previous);
      if !ok { return; }
      var synced := Sync(ServingSide);
      var kept := true;
      if journalled && Journal !in disk.journal.Visible() {
        kept := SaveRecord(previous, data);
      }
      var recovered := Callback();
      if synced && kept && recovered && journalled {
        ok := WithdrawRecord();
      }
    }

    /** Sync, reload, and withdraw the journal; any failure compensates. */
    method Activate(rollback: Option<nat>, previous: Option<Content>, data: Content, initial: bool)
      returns (outcome: Outcome)
      requires Valid() && Keeps(previous) && BackedUp(previous) && Staged(rollback, previous)
      requires Live() == Some(data) && ledger.activated + [data] == upper.activated
      requires journalled ==> JournalVisible() && disk.journal.pending == []
      requires initial ==> journalled
      modifies `disk, `staged, `serial, `ledger, `trace, `faults, `reloads
      ensures Valid() && Keeps(previous)
      ensures outcome == Raised || outcome == Returned(Some(!initial))
      ensures faults >= old(faults) && (outcome.Returned? <==> faults == old(faults))
      ensures outcome.Returned? ==> Live() == Some(data) && staged == old(staged)
      ensures outcome.Returned? && initial ==>
        disk == old(disk).(serving := old(disk).serving.Synced()) && ledger == old(ledger)
      ensures outcome.Returned? && !initial ==>
        ledger.activated == upper.activated && (journalled ==> !JournalVisible())
      ensures faults == old(faults) + 1 ==> Live() == previous
      ensures old(reloads) <= reloads <= old(reloads) + {data}
    {
      hide Valid, Whole, Sound, Restores, Replay, Target, AdmittedRecord;
      var ok := Sync(ServingSide);
      if ok && initial {
        return Returned(Some(false));
      }
      if ok {
        ok := Reload(data);
      }
      if ok && journalled {
        ok := WithdrawRecord();
      }
      if ok {
        return Returned(Some(true));
      }
      Compensate(rollback, previous, data);
      return Raised;
    }

    /** Journal the predecessor, exchange the serving name, and activate. */
    method Exchange(candidate: nat, rollback: Option<nat>, previous: Option<Content>, data: Content, initial: bool)
      returns (outcome: Outcome)
      requires Valid() && Live() == previous && Staged(rollback, previous) && Staged(Some(candidate), Some(data))
      requires rollback != Some(candidate)
      requires journalled ==> !JournalVisible()
      requires previous.Some? ==> Size(previous.value) <= MAX_CONFIG_BYTES
      requires initial ==> journalled
      requires ledger.restorable + {previous} == upper.restorable && ledger.activated + [data] == upper.activated
      modifies `disk, `staged, `serial, `ledger, `trace, `faults, `reloads
      ensures Valid() && Keeps(previous)
      ensures outcome == Raised || outcome == Returned(Some(!initial))
      ensures faults >= old(faults) && (outcome.Returned? <==> faults == old(faults))
      ensures outcome.Returned? ==> Live() == Some(data) && staged == old(staged) - {candidate}
      ensures outcome.Returned? && !initial ==>
        ledger.activated == upper.activated && (journalled ==> !JournalVisible())
      ensures outcome.Returned? && initial ==> Prepared() && ledger.activated == old(ledger).activated
      ensures faults == old(faults) + 1 ==> Live() == previous
      ensures old(reloads) <= reloads <= old(reloads) + {data}
    {
      var ok;
      if journalled {
        ok := WriteJournal(previous, data);
        if !ok { return Raised; }
        assert JournalHeld(disk.journal);
        if guarded { ServingStep(Now(), Link(Serving, data)); }
      }
      ok := Rename(candidate, Serving);
      if !ok { return Raised; }
      outcome := Activate(rollback, previous, data, initial);
    }

    /** A first certificate waits for its host: served and journalled, durably, and not reloaded. */
    ghost predicate Prepared()
      reads `disk
    {
      JournalVisible() && disk.journal.pending == [] && disk.serving.pending == []
    }

    /** The guarded body of a publication, once the candidate is staged. */
    method Install(candidate: nat, previous: Option<Content>, data: Content, initial: bool)
      returns (outcome: Outcome, rollback: Option<nat>)
      requires Valid() && Live() == previous && Staged(Some(candidate), Some(data))
      requires journalled ==> !JournalVisible()
      requires previous.Some? ==> Size(previous.value) <= MAX_CONFIG_BYTES
      requires initial ==> journalled && previous.None?
      requires ledger.restorable + {previous} == upper.restorable && ledger.activated + [data] == upper.activated
      modifies `disk, `staged, `serial, `ledger, `trace, `faults, `reloads
      ensures Valid() && Keeps(previous)
      ensures outcome != Refused && faults >= old(faults) && (outcome.Returned? <==> faults == old(faults))
      ensures outcome.Returned? ==> Live() == Some(data)
      ensures outcome.Returned? ==> outcome.value == if previous == Some(data) then None else Some(!initial)
      ensures outcome.Returned? && !initial ==>
        ledger.activated == upper.activated && (journalled ==> !JournalVisible())
      ensures outcome.Returned? && initial ==> Prepared() && ledger.activated == old(ledger).activated
      ensures outcome.Returned? ==> staged - ({candidate} + Tokens(rollback)) == old(staged) - {candidate}
      ensures faults == old(faults) + 1 ==> Live() == previous
      ensures old(reloads) <= reloads <= old(reloads) + {data}
    {
      hide Valid, Whole, Sound, Restores, Replay;
      rollback := None;
      var ok := Callback();  // validate
      if !ok { return Raised, rollback; }
      if previous == Some(data) {
        ok := Reload(data);
        return if ok then Returned(None) else Raised, rollback;
      }
      if previous.Some? {
        var token;
        ok, token := Stage(previous.value);
        if !ok { return Raised, rollback; }
        rollback := Some(token);
      }
      outcome := Exchange(candidate, rollback, previous, data, initial);
    }

    /** The final cleanup: staged files, and the backup once no journal needs it. */
    method Cleanup(candidate: nat, rollback: Option<nat>) returns (ok: bool)
      requires Valid()
      modifies `disk, `staged, `trace, `faults
      ensures Valid()
      ensures disk.serving == old(disk).serving && JournalVisible() == old(JournalVisible())
      ensures JournalVisible() ==> disk == old(disk)
      ensures faults == old(faults) + if ok then 0 else 1
      ensures ok ==> staged == old(staged) - ({candidate} + Tokens(rollback))
      ensures ok && journalled && !JournalVisible() ==> Backup !in disk.journal.Visible()
    {
      ok := Discard(candidate);
      if ok && rollback.Some? {
        ok := Discard(rollback.value);
      }
      if ok && journalled && Journal !in disk.journal.Visible() {
        if guarded {
          WithoutJournal(Now());
          JournalStep(Now(), Unlink(Backup));
        }
        ok := Remove(Backup);
      }
    }

    /** The refusals that precede any step. */
    ghost predicate Admissible(data: Content, mode: nat, initial: bool)
      reads `disk
    {
      && 0 < Size(data) <= MAX_CONFIG_BYTES
      && (mode == MODE_PRIVATE || (mode == MODE_PUBLIC && !journalled))
      && (journalled ==> !JournalVisible())
      && (initial ==> journalled && Live().None?)
      && (Live().Some? ==> 0 < Size(Live().value) <= MAX_CONFIG_BYTES)
    }

    method Admit(data: Content, mode: nat, initial: bool) returns (ok: bool)
      ensures ok <==> Admissible(data, mode, initial)
    {
      if !(0 < Size(data) <= MAX_CONFIG_BYTES)
         || (mode != MODE_PUBLIC && mode != MODE_PRIVATE) || (journalled && mode != MODE_PRIVATE)
         || (journalled && Journal in disk.journal.Visible())
      {
        return false;
      }
      var names := disk.serving.Visible();
      if initial && (!journalled || Serving in names) {
        return false;
      }
      return Serving in names ==> 0 < Size(names[Serving]) <= MAX_CONFIG_BYTES;
    }

    /** An admitted publication: stage the candidate, install it, and clean up whatever happened. */
    method Attempt(previous: Option<Content>, data: Content, initial: bool)
      returns (outcome: Outcome, ghost early: nat)
      requires Valid() && Live() == previous
      requires journalled ==> !JournalVisible()
      requires previous.Some? ==> Size(previous.value) <= MAX_CONFIG_BYTES
      requires initial ==> journalled && previous.None?
      requires ledger.restorable + {previous} == upper.restorable && ledger.activated + [data] == upper.activated
      modifies `disk, `staged, `serial, `ledger, `trace, `faults, `reloads
      ensures Valid() && outcome != Refused
      ensures outcome.Returned? ==> early == 0 && staged == old(staged) && Live() == Some(data)
      ensures outcome.Returned? ==> outcome.value == if previous == Some(data) then None else Some(!initial)
      ensures outcome.Returned? && !initial ==> ledger.activated == upper.activated
      ensures outcome.Returned? && !initial && journalled ==> !JournalVisible() && Backup !in disk.journal.Visible()
      ensures outcome.Returned? && initial ==> Prepared() && ledger.activated == old(ledger).activated
      ensures outcome == Raised && early == 1 ==> Live() == previous
      ensures outcome == Raised && early > 0 ==> Keeps(previous)
      ensures outcome == Raised && early == 0 ==> Live() == Some(data)
      ensures outcome == Raised && early == 0 && !initial && journalled ==> !JournalVisible()
      ensures early <= faults - old(faults)
      ensures faults == old(faults) ==> outcome.Returned?
      ensures old(reloads) <= reloads <= old(reloads) + {data}
    {
      var ok, candidate := Stage(data);
      if !ok {
        early := 1;
        return Raised, early;
      }
      var rollback;
      outcome, rollback := Install(candidate, previous, data, initial);
      early := faults - old(faults);
      ok := Cleanup(candidate, rollback);
      if !ok {
        outcome := Raised;
      }
    }

    /**
      Publish `data`. `early` counts the steps that failed before the final cleanup.
      Under a journal every disk passed through is sound for {previous, data once reloaded}.
     */
    method Publish(data: Content, mode: nat, initial: bool) returns (outcome: Outcome, ghost early: nat)
      requires Valid()
      modifies `disk, `staged, `serial, `ledger, `trace, `faults, `reloads, `past, `lower, `upper
      ensures Valid()
      ensures past == old(trace) && lower == old(ledger)
      ensures upper == Ledger(lower.base, lower.activated + [data], lower.restorable + {old(Live())})
      ensures outcome == Refused <==> !old(Admissible(data, mode, initial))
      ensures outcome == Refused ==> disk == old(disk) && staged == old(staged) && trace == old(trace)
      // Success: the candidate is served, its reload acknowledged, and nothing is left behind.
      ensures outcome.Returned? ==> early == 0 && staged == old(staged) && Live() == Some(data)
      ensures outcome.Returned? ==> outcome.value == if old(Live()) == Some(data) then None else Some(!initial)
      ensures outcome.Returned? && !initial ==> ledger.activated == upper.activated
      ensures outcome.Returned? && !initial && journalled ==> !JournalVisible() && Backup !in disk.journal.Visible()
      ensures outcome.Returned? && initial ==> Prepared() && ledger.activated == lower.activated
      // Failure atomicity: one failed step leaves the predecessor; after any number the journal is gone or gives it back.
      ensures outcome == Raised && early == 1 ==> Live() == old(Live())
      ensures outcome == Raised && early > 0 ==> Keeps(old(Live()))
      ensures outcome == Raised && early == 0 ==> Live() == Some(data)
      ensures outcome == Raised && early == 0 && !initial && journalled ==> !JournalVisible()
      ensures early <= faults - old(faults)
      ensures faults == old(faults) && outcome != Refused ==> outcome.Returned?
      ensures old(reloads) <= reloads <= old(reloads) + {data}
    {
      early := 0;
      past, lower := trace, ledger;
      upper := Ledger(ledger.base, ledger.activated + [data], ledger.restorable + {Live()});
      var admitted := Admit(data, mode, initial);
      if !admitted {
        return Refused, early;
      }
      outcome, early := Attempt(Get(disk.serving.Visible(), Serving), data, initial);
    }

    // ---------- Whole runs ----------

    /**
      Power fails at recorded step `k`, keeping `i` and `j` pending operations. The
      ledger narrows to the one content the surviving disk stands for.
     */
    method Crash(k: nat, i: nat, j: nat)
      requires Valid() && guarded
      requires k < |trace| && i <= |trace[k].disk.serving.pending| && j <= |trace[k].disk.journal.pending|
      modifies `disk, `staged, `ledger, `past, `lower, `upper
      ensures Valid()
      ensures disk == Crashed(trace[k], i, j)
      ensures JournalVisible() ==> exists target ::
        && target in trace[k].ledger.restorable && Restores(disk.journal.Visible(), target)
        && ledger == Ledger({target}, [], {target})
      ensures !JournalVisible() ==> trace[k].ledger.Accepts(Live()) && ledger == Ledger({Live()}, [], {})
    {
      assert Sound(trace[k]);
      disk := Crashed(trace[k], i, j);
      staged := map[];
      var names := disk.journal.Visible();
      assert names == trace[k].disk.journal.Image(j);
      assert disk.serving.Visible() == trace[k].disk.serving.Image(i);
      if Journal in names {
        assert Recoverable(names, trace[k].ledger.restorable);
        var target := Target(names);
        ledger := Ledger({target.value}, [], {target.value});
      } else {
        ledger := Ledger({Get(disk.serving.Visible(), Serving)}, [], {});
      }
      past, lower, upper := trace, ledger, ledger;
    }

    /** One content is all a restart can come to. */
    ghost predicate Settled(content: Option<Content>)
      reads `ledger
    {
      ledger.base == {content} && ledger.activated == [] && ledger.restorable <= {content}
    }

    /** The machine is back from a crash at `s`, with one content left to come to. */
    ghost predicate RestartedFrom(s: Snapshot, reloaded: bool)
      reads `disk, `ledger
    {
      && reloaded == (s.ledger.activated != [])
      && (JournalVisible() ==> exists target ::
            target in s.ledger.restorable && Settled(target) && Restores(disk.journal.Visible(), target))
      && (!JournalVisible() ==> s.ledger.Accepts(Live()) && Settled(Live()))
    }

    /** Power may fail at any step recorded since `start`. */
    method MaybeCrash(start: nat) returns (crashed: bool, reloaded: bool)
      requires Valid() && guarded
      modifies `disk, `staged, `ledger, `past, `lower, `upper
      ensures Valid()
      ensures !crashed ==> disk == old(disk) && ledger == old(ledger)
      ensures crashed ==> exists k :: start <= k < |trace| && RestartedFrom(trace[k], reloaded)
    {
      var k: nat, i: nat, j: nat := *, *, *;
      crashed, reloaded := false, false;
      if start <= k < |trace| && i <= |trace[k].disk.serving.pending| && j <= |trace[k].disk.journal.pending| {
        crashed, reloaded := true, trace[k].ledger.activated != [];
        Crash(k, i, j);
      }
    }

    /** Recovery is cut off any number of times, then let run. */
    method RecoverThroughCrashes(interruptions: nat, ghost content: Option<Content>) returns (outcome: Outcome)
      requires Valid() && guarded && Settled(content)
      modifies this
      ensures Valid()
      ensures outcome.Returned? ==> !JournalVisible() && Live() == content
    {
      var left := interruptions;
      while left > 0
        invariant Valid() && Settled(content)
      {
        var start := |trace|;
        outcome := RecoverPublication();
        var _, _ := MaybeCrash(start);
        left := left - 1;
      }
      outcome := RecoverPublication();
      if outcome.Returned? {
        WithoutJournal(Now());
      }
    }

    /**
      A journalled publication is cut off at any step, then recovery is cut off any
      number of times, then recovery is let run. `survived` tells whether the journal
      outlived the first crash, `reloaded` whether the candidate's reload had succeeded.
     */
    method PublishThroughCrashes(data: Content, initial: bool, interruptions: nat)
      returns (outcome: Outcome, crashed: bool, survived: bool, reloaded: bool)
      requires Valid() && guarded && ledger == Ledger({Live()}, [], {})
      modifies this
      ensures Valid()
      ensures crashed && outcome.Returned? ==> !JournalVisible()
      ensures crashed && outcome.Returned? && survived ==> Live() == old(Live())
      ensures crashed && outcome.Returned? && !survived ==>
        Live() == old(Live()) || (reloaded && Live() == Some(data))
    {
      hide Sound, Replay;
      var start := |trace|;
      ghost var early;
      outcome, early := Publish(data, MODE_PRIVATE, initial);
      crashed, reloaded := MaybeCrash(start);
      survived := Journal in disk.journal.Visible();
      if crashed {
        ghost var content := if survived then old(Live()) else Live();
        assert Settled(content);
        outcome := RecoverThroughCrashes(interruptions, content);
      }
    }

    /** Everything the ledger accepts was there first or has been reloaded. */
    ghost predicate Honest(l: Ledger, first: Option<Content>)
      reads `reloads
    {
      forall c :: l.Accepts(c) ==> c == first || (c.Some? && c.value in reloads)
    }

    /** The present state is one that power may fail in, too. */
    method Mark()
      requires Valid()
      modifies `trace
      ensures Valid() && trace == old(trace) + [Now()]
    {
      trace := trace + [Now()];
    }

    /** Whatever snapshot of an operation is restarted from, nothing dishonest is accepted. */
    lemma RestartHonest(s: Snapshot, reloaded: bool, first: Option<Content>)
      requires Valid() && Honest(s.ledger, first) && RestartedFrom(s, reloaded)
      requires forall t :: t in s.ledger.restorable ==> s.ledger.Accepts(t)
      ensures Honest(ledger, first)
    {
    }

    lemma SpannedHonest(s: Snapshot, first: Option<Content>)
      requires lower.Spans(upper, s.ledger) && Acknowledged(s.ledger) && Honest(lower, first)
      ensures Honest(s.ledger, first)
    {
      forall c | s.ledger.Accepts(c) ensures c == first || (c.Some? && c.value in reloads) {
        assert c in lower.base ==> lower.Accepts(c);
        assert c.Some? && c.value in lower.activated ==> lower.Accepts(c);
      }
    }

    /** One request, cut off at any of its steps or let run. */
    method Serve(request: Request, ghost first: Option<Content>)
      requires Valid() && guarded && Honest(ledger, first)
      modifies this
      ensures Valid() && Honest(ledger, first)
      ensures old(reloads) <= reloads
      ensures reloads <= old(reloads) + if request.PublishRequest? then {request.data} else {}
    {
      hide Sound, Restores, Replay;
      var start := |trace|;
      Mark();
      ghost var idle := trace[start];
      match request {
        case PublishRequest(data, initial) => var outcome, early := Publish(data, MODE_PRIVATE, initial);
        case RecoverRequest => var outcome := RecoverPublication();
      }
      assert trace[start] == idle;
      SpannedHonest(Now(), first);
      forall k | start <= k < |trace| ensures Honest(trace[k].ledger, first) {
        if k > start {
          SpannedHonest(trace[k], first);
        }
      }
      RestorableAccepted();
      var crashed, reloaded := MaybeCrash(start);
      if crashed {
        ghost var k :| start <= k < |trace| && RestartedFrom(trace[k], reloaded);
        RestartHonest(trace[k], reloaded, first);
      }
    }

    lemma RestorableAccepted()
      requires Valid() && guarded
      ensures forall k, t :: 0 <= k < |trace| && t in trace[k].ledger.restorable ==> trace[k].ledger.Accepts(t)
    {
    }

    /**
      Any sequence of publications and recoveries, each cut off at any step or let run. Whenever no
      journal is left, what is served was there first or its reload has succeeded; whenever one is
      left, it restores such a content.
     */
    method Run(requests: seq<Request>)
      requires Valid() && guarded && ledger == Ledger({Live()}, [], {})
      modifies this
      ensures Valid()
      ensures !JournalVisible() ==> Live() == old(Live()) || (Live().Some? && Live().value in reloads)
      ensures JournalVisible() ==> exists t ::
        Restores(disk.journal.Visible(), t) && (t == old(Live()) || (t.Some? && t.value in reloads))
      ensures forall c :: c in reloads ==>
        c in old(reloads) || exists r :: r in requests && r.PublishRequest? && r.data == c
    {
      ghost var first := Live();
      for i := 0 to |requests|
        invariant Valid() && Honest(ledger, first)
        invariant forall c :: c in reloads ==>
          c in old(reloads) || exists r :: r in requests && r.PublishRequest? && r.data == c
      {
        assert requests[i] in requests;
        Serve(requests[i], first);
      }
      if Journal !in disk.journal.Visible() {
        WithoutJournal(Now());
      } else {
        assert disk.journal.Visible() == disk.journal.Image(|disk.journal.pending|);
        ghost var t :| t in ledger.restorable && Restores(disk.journal.Visible(), t);
        assert ledger.Accepts(t);
      }
    }
  }
}
