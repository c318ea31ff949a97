/**
  A directory whose entries reach the disk in order.

  `durable` is what survives a power loss. `pending` lists the renames and
  removals made since the last successful fsync; a crash keeps some prefix of
  them. File contents are written and synced before they are linked, so an entry
  always names complete content.
 */
module DurableDirectory {
  import opened Common

  /** SHA-256, as the injective function it is relied on to be. */
  datatype Digest = Sha256(preimage: Content)

  /** The bytes of a file. A publication record is kept decoded. */
  datatype Content =
    | Raw(bytes: seq<byte>)
    | Record(previous: Option<Digest>, candidate: Option<Digest>)

  function Size(content: Content): nat {
    match content
    case Raw(bytes) => |bytes|
    case Record(previous, candidate) =>
      43 + (if previous.Some? then 66 else 4) + (if candidate.Some? then 66 else 4)
  }

  datatype Name = Serving | Journal | Backup

  type Names = map<Name, Content>

  function Get(names: Names, name: Name): Option<Content> {
    if name in names then Some(names[name]) else None
  }

  datatype Op = Link(name: Name, content: Content) | Unlink(name: Name)

  function Apply(names: Names, op: Op): Names {
    match op
    case Link(name, content) => names[name := content]
    case Unlink(name) => names - {name}
  }

  function Replay(names: Names, ops: seq<Op>): Names {
    if ops == [] then names else Apply(Replay(names, ops[..|ops| - 1]), ops[|ops| - 1])
  }

  datatype Directory = Directory(durable: Names, pending: seq<Op>) {

    /** What a crash leaves when it keeps the first `k` pending operations. */
    function Image(k: nat): Names
      requires k <= |pending|
    {
      Replay(durable, pending[..k])
    }

    /** What the running system sees. */
    function Visible(): Names {
      Image(|pending|)
    }

    function Queue(op: Op): (after: Directory)
      ensures after.Visible() == Apply(Visible(), op)
    {
      assert (pending + [op])[..|pending|] == pending[..|pending|];
      assert (pending + [op])[..|pending| + 1] == pending + [op];
      Directory(durable, pending + [op])
    }

    function Synced(): (after: Directory)
      ensures after.Visible() == Visible()
    {
      Directory(Visible(), [])
    }
  }

  lemma QueueImage(d: Directory, op: Op, k: nat)
    requires k <= |d.pending| + 1
    ensures d.Queue(op).Image(k) == if k <= |d.pending| then d.Image(k) else Apply(d.Visible(), op)
  {
    if k <= |d.pending| {
      assert (d.pending + [op])[..k] == d.pending[..k];
    }
  }

  // ---------- One directory or two ----------
  // The journal usually sits beside the serving file. Keeping a prefix of one shared
  // list of operations is then the same as keeping some prefix of each part of it, so
  // two directories that crash independently include every outcome of the shared one.

  function Part(names: Names, mine: set<Name>): Names {
    map name | name in names && name in mine :: names[name]
  }

  function PartOps(ops: seq<Op>, mine: set<Name>): seq<Op> {
    if ops == [] then []
    else
      var rest := PartOps(ops[..|ops| - 1], mine);
      if ops[|ops| - 1].name in mine then rest + [ops[|ops| - 1]] else rest
  }

  lemma {:induction false} SharedDirectory(d: Directory, k: nat, mine: set<Name>)
    requires k <= |d.pending|
    ensures
      var part := Directory(Part(d.durable, mine), PartOps(d.pending, mine));
      exists m: nat :: m <= |part.pending| && part.Image(m) == Part(d.Image(k), mine)
  {
    var part := Directory(Part(d.durable, mine), PartOps(d.pending, mine));
    var m := |PartOps(d.pending[..k], mine)|;
    PartPrefix(d.pending, k, mine);
    PartReplay(d.durable, d.pending[..k], mine);
    assert part.pending[..m] == PartOps(d.pending[..k], mine);
    assert part.Image(m) == Part(d.Image(k), mine);
  }

  lemma {:induction false} PartPrefix(ops: seq<Op>, k: nat, mine: set<Name>)
    requires k <= |ops|
    ensures PartOps(ops[..k], mine) <= PartOps(ops, mine)
  {
    if k == |ops| {
      assert ops[..k] == ops;
    } else {
      assert ops[..|ops| - 1][..k] == ops[..k];
      PartPrefix(ops[..|ops| - 1], k, mine);
    }
  }

  lemma {:induction false} PartReplay(names: Names, ops: seq<Op>, mine: set<Name>)
    ensures Part(Replay(names, ops), mine) == Replay(Part(names, mine), PartOps(ops, mine))
  {
    if ops == [] {
    } else {
      var before, op := ops[..|ops| - 1], ops[|ops| - 1];
      PartReplay(names, before, mine);
      var rest := PartOps(before, mine);
      if op.name in mine {
        assert (rest + [op])[..|rest|] == rest;
        assert Part(Apply(Replay(names, before), op), mine) == Apply(Part(Replay(names, before), mine), op);
      } else {
        assert Part(Apply(Replay(names, before), op), mine) == Part(Replay(names, before), mine);
      }
    }
  }
}
