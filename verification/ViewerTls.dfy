/**
  Keeping the activation receipt true of the served certificate across renewals
  (scripts/direct-viewer-tls.py, over the publication of scripts/haproxy_config_lifecycle.py).

  A step may fail, or the process may stop. What the renewal sees of the publication is stated by
  `PublicationEnds`; `ViewerPublication` derives it from the publisher that works on directories, for
  power losses at any step as well. Every receipt is synced before the next step begins.
 */
module ViewerTls {
  import opened Common

  /** A certificate with its key is bytes that have a fingerprint. */
  datatype Pem = Pem(content: string, fingerprint: string)

  /** SHA-256 of the bytes, as the injective function it is relied on to be. */
  datatype Digest = Sha256(preimage: Pem)

  datatype Record = Record(previous: Option<Digest>, candidate: Digest)

  datatype Receipt = Receipt(fingerprint: string, initialAt: int, renewedAt: Option<int>)

  datatype Fate = Done | Failed | Stopped

  /** accept: the receipt that replaces `previous`. */
  function Accepted(previous: Option<Receipt>, certificate: Pem, now: int): Receipt {
    match previous
    case None => Receipt(certificate.fingerprint, now, None)
    case Some(r) =>
      Receipt(certificate.fingerprint, r.initialAt,
              if r.fingerprint != certificate.fingerprint then Some(now) else r.renewedAt)
  }

  function Faults(fates: seq<Fate>): nat {
    if fates == [] then 0 else (if fates[0].Done? then 0 else 1) + Faults(fates[1..])
  }

  /** The next `n` steps are done and the one after them is the last. */
  predicate StopsAfter(fates: seq<Fate>, n: int) {
    0 <= n == |fates| - 1 && fates[n].Stopped? && forall i :: 0 <= i < n ==> fates[i].Done?
  }

  lemma {:induction false} StopIsOneFault(fates: seq<Fate>, n: int)
    requires StopsAfter(fates, n)
    ensures Faults(fates) == 1
  {
    if n > 0 {
      StopIsOneFault(fates[1..], n - 1);
    }
  }

  /**
    How a publication of `data` over `previous` may end for the serving name and the journal: a journal that is
    left gives the predecessor back, and without one either certificate is served, as the end says.
   */
  predicate PublicationEnds(previous: Pem, data: Pem, fate: Fate, serving: Option<Pem>, journal: Option<Record>,
                            backup: Option<Pem>)
  {
    && (journal.Some? ==> journal.value.previous == Some(Sha256(previous)) && backup == Some(previous))
    && (journal.None? ==> serving == Some(previous) || serving == Some(data))
    && (fate.Done? ==> journal.None? && serving == Some(data))
    && (fate.Failed? ==> serving == Some(previous) || (journal.None? && serving == Some(data)))
  }

  datatype Operation = DeployOperation(certificate: Pem, guarded: bool) | RecoverOperation

  class Viewer {
    var serving: Option<Pem>
    var journal: Option<Record>
    var backup: Option<Pem>
    var receipt: Option<Receipt>
    var previousReceipt: Option<Receipt>
    var now: int

    /** How the next steps of the host will end; beyond the last one they are done. */
    var fates: seq<Fate>

    /** How many faults the current invocation can still meet. */
    ghost function Budget(): nat
      reads `fates
    {
      Faults(fates)
    }

    /** Nothing is pending, and the receipt names what is served. */
    ghost predicate Coherent(initialAt: int)
      reads this
    {
      && journal.None? && serving.Some? && receipt.Some?
      && receipt.value.fingerprint == serving.value.fingerprint && receipt.value.initialAt == initialAt
    }

    /** A publication is pending: its predecessor is kept, and no receipt has lost the first acceptance. */
    ghost predicate Pending(initialAt: int)
      reads this
    {
      && journal.Some? && journal.value.previous.Some?
      && backup == Some(journal.value.previous.value.preimage)
      && serving.Some? && receipt.Some? && previousReceipt.Some?
      && receipt.value.initialAt == previousReceipt.value.initialAt == initialAt
    }

    /** The kept receipt is the predecessor's: recovery needs nothing else. */
    ghost predicate Recoverable(initialAt: int)
      reads this
    {
      Pending(initialAt) && previousReceipt.value.fingerprint == backup.value.fingerprint
    }

    ghost predicate Valid(initialAt: int)
      reads this
    {
      Coherent(initialAt) || Pending(initialAt)
    }

    /** A first installation is pending: nothing was accepted before. */
    ghost predicate Preparing()
      reads this
    {
      journal.Some? && journal.value.previous.None? && receipt.None?
    }

    constructor (certificate: Pem, initialAt: int)
      ensures Coherent(initialAt)
    {
      serving, journal, backup, previousReceipt := Some(certificate), None, None, None;
      receipt, now, fates := Some(Receipt(certificate.fingerprint, initialAt, None)), initialAt, [];
    }

    /** One step of the host, with whatever fate the schedule holds for it. */
    method Attempt() returns (fate: Fate)
      modifies `fates
      ensures fate.Done? ==> Budget() == old(Budget())
      ensures !fate.Done? ==> Budget() + 1 == old(Budget())
      ensures forall n :: StopsAfter(old(fates), n) ==>
        if n == 0 then fate.Stopped? else fate.Done? && StopsAfter(fates, n - 1)
    {
      fate := Done;
      if fates != [] {
        fate, fates := fates[0], fates[1..];
      }
    }

    /** atomic_json: replace, then sync. */
    method WriteReceipt(value: Receipt) returns (fate: Fate)
      modifies `receipt, `fates
      ensures receipt == old(receipt) || receipt == Some(value)
      ensures fate.Done? ==> receipt == Some(value) && Budget() == old(Budget())
      ensures !fate.Done? ==> Budget() + 1 == old(Budget())
      ensures StopsAfter(old(fates), 1) ==> fate.Stopped? && receipt == Some(value)
    {
      fate := Attempt();
      if fate.Done? {
        receipt := Some(value);
        fate := Attempt();
      }
    }

    method WritePreviousReceipt(value: Receipt) returns (fate: Fate)
      modifies `previousReceipt, `fates
      ensures previousReceipt == old(previousReceipt) || previousReceipt == Some(value)
      ensures fate.Done? ==> previousReceipt == Some(value) && Budget() == old(Budget())
      ensures !fate.Done? ==> Budget() + 1 == old(Budget())
      ensures forall n :: n >= 2 && StopsAfter(old(fates), n) ==> fate.Done? && StopsAfter(fates, n - 2)
    {
      fate := Attempt();
      if fate.Done? {
        previousReceipt := Some(value);
        fate := Attempt();
      }
    }

    /** The activation callback: reload, verify what is served, then accept it. */
    method Activate(certificate: Pem) returns (fate: Fate)
      modifies `receipt, `fates
      ensures receipt == old(receipt) || receipt == Some(Accepted(old(receipt), certificate, now))
      ensures fate.Done? ==> receipt == Some(Accepted(old(receipt), certificate, now)) && Budget() == old(Budget())
      ensures !fate.Done? ==> Budget() + 1 == old(Budget())
      ensures StopsAfter(old(fates), 3) ==> fate.Stopped? && receipt == Some(Accepted(old(receipt), certificate, now))
    {
      fate := Attempt();
      if fate.Done? {
        fate := Attempt();
      }
      if fate.Done? {
        fate := WriteReceipt(Accepted(receipt, certificate, now));
      }
    }

    /** The compensation callback: the acceptance binding first, then the shared reload and its proof. */
    method Reinstate(previous: Receipt) returns (fate: Fate)
      modifies `receipt, `fates
      ensures receipt == old(receipt) || receipt == Some(previous)
      ensures fate.Done? ==> receipt == Some(previous) && Budget() == old(Budget())
      ensures !fate.Done? ==> Budget() + 1 == old(Budget())
    {
      fate := WriteReceipt(previous);
      if fate.Done? {
        fate := Attempt();
      }
      if fate.Done? {
        fate := Attempt();
      }
    }

    /** unlink and sync. */
    method DropJournal() returns (fate: Fate)
      modifies `journal, `fates
      ensures journal == old(journal) || journal == None
      ensures fate.Done? ==> journal == None && Budget() == old(Budget())
      ensures !fate.Done? ==> Budget() + 1 == old(Budget())
    {
      fate := Attempt();
      if fate.Done? {
        journal := None;
        fate := Attempt();
      }
    }

    method WriteJournal(record: Record) returns (fate: Fate)
      modifies `journal, `fates
      ensures journal == old(journal) || journal == Some(record)
      ensures fate.Done? ==> journal == Some(record) && Budget() == old(Budget())
      ensures !fate.Done? ==> Budget() + 1 == old(Budget())
      ensures forall n :: n >= 2 && StopsAfter(old(fates), n) ==> fate.Done? && StopsAfter(fates, n - 2)
    {
      fate := Attempt();
      if fate.Done? {
        journal := Some(record);
        fate := Attempt();
      }
    }

    /** What publish does once the journal is durable and the candidate is to be served. */
    method Switch(previous: Pem, data: Pem, record: Record, was: Receipt, initialAt: int) returns (fate: Fate)
      requires Recoverable(initialAt) && journal == Some(record) && record.previous == Some(Sha256(previous))
      requires serving == Some(previous) && receipt == Some(was) && previousReceipt == Some(was)
      requires was.initialAt == initialAt && was.fingerprint == previous.fingerprint && Budget() <= 1
      modifies `serving, `journal, `receipt, `fates
      ensures (Coherent(initialAt) || Recoverable(initialAt)) && Budget() <= old(Budget())
      ensures fate.Done? ==> journal.None? && serving == Some(data) && receipt == Some(Accepted(Some(was), data, now))
      ensures (serving == Some(previous) || serving == Some(data)) && (journal.None? || journal == Some(record))
      ensures fate.Failed? ==> serving == Some(previous) && receipt == Some(was)
      ensures StopsAfter(old(fates), 5) ==>
        && fate.Stopped? && journal == Some(record) && serving == Some(data)
        && receipt == Some(Accepted(Some(was), data, now))
    {
      fate := Attempt();
      if !fate.Done? {
        return;
      }
      serving := Some(data);
      fate := Attempt();          // The serving directory's sync.
      if fate.Done? {
        fate := Activate(data);
      }
      if fate.Done? {
        fate := DropJournal();
      }
      if !fate.Failed? {
        return;
      }
      fate := Compensate(previous, record, was);
      if fate.Done? {
        fate := Failed;
      }
    }

    /** publish's exception path. */
    method Compensate(previous: Pem, record: Record, was: Receipt) returns (fate: Fate)
      requires Budget() == 0 && (journal.None? || journal == Some(record))
      modifies `serving, `journal, `receipt, `fates
      ensures fate.Done? && Budget() == 0
      ensures journal.None? && serving == Some(previous) && receipt == Some(was)
    {
      fate := Attempt();
      if !fate.Done? {
        return;
      }
      serving := Some(previous);
      var synced := Attempt();
      var kept := Done;
      if journal.None? {
        kept := WriteJournal(record);
      }
      fate := Reinstate(was);
      if fate.Done? && synced.Done? && kept.Done? {
        fate := DropJournal();
      }
    }

    /** publish, over a served predecessor. */
    method Publish(data: Pem, was: Receipt, initialAt: int) returns (fate: Fate)
      requires Coherent(initialAt) && receipt == Some(was) && previousReceipt == Some(was) && Budget() <= 1
      modifies `serving, `journal, `backup, `receipt, `fates
      ensures (Coherent(initialAt) || Recoverable(initialAt)) && Budget() <= old(Budget())
      ensures fate.Done? ==> journal.None? && serving == Some(data) && receipt == Some(Accepted(Some(was), data, now))
      ensures PublicationEnds(old(serving).value, data, fate, serving, journal, backup)
      ensures fate.Failed? ==> receipt == Some(was) || receipt == Some(Accepted(Some(was), data, now))
      ensures StopsAfter(old(fates), 9) && old(serving) != Some(data) ==>
        && fate.Stopped? && journal.Some? && serving == Some(data) && receipt == Some(Accepted(Some(was), data, now))
        && backup == old(serving)
    {
      var previous := serving.value;
      fate := Attempt();          // Stage and validate the candidate.
      if !fate.Done? {
        return;
      }
      if previous == data {
        fate := Activate(data);
      } else {
        fate := Attempt();        // Stage the rollback and save the backup.
        if fate.Done? {
          backup := Some(previous);
          var record := Record(Some(Sha256(previous)), Sha256(data));
          fate := WriteJournal(record);
          if fate.Done? {
            fate := Switch(previous, data, record, was, initialAt);
          }
        }
      }
      if journal.None? && !fate.Stopped? {
        var cleaned := Attempt();
        if cleaned.Done? {
          backup := None;
        } else {
          fate := cleaned;
        }
      }
    }

    /**
      deploy, for a renewal. The receipt is set aside before publish looks for a pending journal, so
      called over a pending publication that was already accepted it overwrites the one receipt
      recovery needs; the journal, what is served and its receipt are left alone in any case.
     */
    method Deploy(certificate: Pem, initialAt: int) returns (fate: Fate)
      requires Valid(initialAt) && Budget() <= 1
      modifies `serving, `journal, `backup, `receipt, `previousReceipt, `fates
      ensures Valid(initialAt)
      ensures old(journal).None? ==> Coherent(initialAt) || Recoverable(initialAt)
      ensures fate.Done? ==> old(journal).None? && Coherent(initialAt) && serving == Some(certificate)
      ensures fate.Done? ==> receipt == Some(Accepted(old(receipt), certificate, now))
      ensures fate.Failed? && old(journal).None? ==> serving == old(serving) || serving == Some(certificate)
      ensures old(journal).Some? ==>
        journal == old(journal) && serving == old(serving) && receipt == old(receipt) && backup == old(backup)
      ensures old(journal).Some? ==> !fate.Done? && (old(Budget()) == 0 ==> fate.Failed?)
      ensures && old(Recoverable(initialAt))
              && (serving.value.fingerprint != receipt.value.fingerprint
                  || receipt.value.fingerprint == backup.value.fingerprint) ==>
        Recoverable(initialAt)
      ensures old(Recoverable(initialAt)) && old(Budget()) == 0 ==>
        (Recoverable(initialAt) <==>
           serving.value.fingerprint != receipt.value.fingerprint
           || receipt.value.fingerprint == backup.value.fingerprint)
      // Stopped between the replacement of the receipt and its sync, everything is in place but the journal's removal.
      ensures StopsAfter(old(fates), 12) && old(Coherent(initialAt)) && old(serving) != Some(certificate) ==>
        && Recoverable(initialAt) && serving == Some(certificate)
        && receipt == Some(Accepted(old(receipt), certificate, now)) && backup == old(serving)
    {
      if serving.None? || receipt.None? || serving.value.fingerprint != receipt.value.fingerprint {
        return Failed;
      }
      fate := Attempt();          // Admit the lineage and verify what is served now.
      if !fate.Done? {
        return;
      }
      var was := receipt.value;
      fate := WritePreviousReceipt(was);
      if !fate.Done? {
        return;
      }
      if journal.Some? {
        return Failed;
      }
      fate := Publish(certificate, was, initialAt);
      if fate.Done? {
        fate := Attempt();
      }
      if fate.Done? {
        previousReceipt := None;
        fate := Attempt();
      }
    }

    /** The recovery action. It may be interrupted any number of times. */
    method Recover(initialAt: int) returns (fate: Fate)
      requires Valid(initialAt) || Preparing()
      modifies `serving, `journal, `backup, `receipt, `previousReceipt, `fates
      ensures old(Valid(initialAt)) ==> Valid(initialAt) && (fate.Done? ==> Coherent(initialAt))
      ensures fate.Done? && old(Pending(initialAt)) ==> serving == old(backup) && receipt == old(previousReceipt)
      ensures journal.Some? ==> journal == old(journal) && backup == old(backup) && previousReceipt == old(previousReceipt)
      ensures old(Recoverable(initialAt)) ==> Coherent(initialAt) || Recoverable(initialAt)
      ensures old(Pending(initialAt)) && !old(Recoverable(initialAt)) ==>
        !fate.Done? && Pending(initialAt) && !Recoverable(initialAt)
      ensures old(Pending(initialAt)) && old(Budget()) == 0 ==> (fate.Done? <==> old(Recoverable(initialAt)))
      // An interrupted first installation is taken back: nothing served, nothing accepted.
      ensures old(Preparing()) ==> receipt.None? && (Preparing() || (journal.None? && serving.None?))
      ensures old(Preparing()) && fate.Done? ==> journal.None? && serving.None? && backup.None?
      ensures old(Preparing()) && old(Budget()) == 0 ==> fate.Done?
    {
      if journal.None? {
        return Done;
      }
      var previous := journal.value.previous;
      if previous.None? {
        fate := Attempt();          // The service was never started.
        if !fate.Done? {
          return;
        }
        serving := None;
      } else {
        if backup.None? || Sha256(backup.value) != previous.value {
          return Failed;
        }
        fate := Attempt();          // Stage the predecessor.
        if !fate.Done? {
          return;
        }
        serving := backup;
      }
      fate := Attempt();
      if !fate.Done? {
        return;
      }
      if previous.Some? {
        if previousReceipt.None? || previousReceipt.value.fingerprint != serving.value.fingerprint {
          return Failed;
        }
        fate := Reinstate(previousReceipt.value);
      }
      if fate.Done? {
        fate := DropJournal();
      }
      if fate.Done? {
        fate := Withdraw();
      }
    }

    /** After the journal: the backup and the receipt set aside go too. */
    method Withdraw() returns (fate: Fate)
      modifies `backup, `previousReceipt, `fates
      ensures fate.Done? ==> backup.None? && previousReceipt.None? && Budget() == old(Budget())
      ensures !fate.Done? ==> Budget() + 1 == old(Budget())
    {
      fate := Attempt();
      if fate.Done? {
        backup := None;
        fate := Attempt();
      }
      if fate.Done? {
        previousReceipt := None;
      }
    }

    /**
      Why the condition on `Deploy` is there. A renewal is stopped right after it replaced the receipt; a
      second one, meeting no fault at all, is refused because of the pending journal, but has overwritten
      the receipt recovery needs. From then on recovery stops half way, however often it is run.
     */
    method RenewOverPending(certificate: Pem, initialAt: int, attempts: nat)
      requires Coherent(initialAt) && serving.value.fingerprint != certificate.fingerprint
      modifies this
      ensures Pending(initialAt) && !Recoverable(initialAt)
    {
      fates := seq(12, i => Done) + [Stopped];
      assert StopsAfter(fates, 12);
      StopIsOneFault(fates, 12);
      var fate := Deploy(certificate, initialAt);
      assert Recoverable(initialAt);
      fates := [];
      fate := Deploy(certificate, initialAt);
      assert fate.Failed?;
      for i := 0 to attempts
        invariant Pending(initialAt) && !Recoverable(initialAt)
      {
        fates := *;
        fate := Recover(initialAt);
        assert !fate.Done?;
      }
    }

    /**
      Any sequence of renewals, each with at most one fault, and recoveries with any number. Without
      a journal the receipt is always true; and if no renewal is started over a pending journal, as
      the renewal command itself refuses to, recovery can always complete.
     */
    method Operate(operations: seq<Operation>, initialAt: int)
      requires Valid(initialAt)
      modifies this
      ensures Valid(initialAt) && (journal.None? ==> Coherent(initialAt))
      ensures old(Coherent(initialAt)) && (forall o :: o in operations && o.DeployOperation? ==> o.guarded) ==>
        Coherent(initialAt) || Recoverable(initialAt)
    {
      ghost var guarded := forall o :: o in operations && o.DeployOperation? ==> o.guarded;
      for i := 0 to |operations|
        invariant Valid(initialAt)
        invariant old(Coherent(initialAt)) && guarded ==> Coherent(initialAt) || Recoverable(initialAt)
      {
        assert operations[i] in operations;
        var elapsed: int := *;
        var schedule: seq<Fate> := *;
        if elapsed > 0 {
          now := now + elapsed;
        }
        match operations[i] {
          case DeployOperation(certificate, checked) =>
            if !checked || journal.None? {
              fates := if Faults(schedule) <= 1 then schedule else [];
              var fate := Deploy(certificate, initialAt);
            }
          case RecoverOperation =>
            fates := schedule;
            var fate := Recover(initialAt);
        }
      }
    }
  }
}
