/**
  CIDR blocks (section 3.1 of RFC 4632), kept as the prefix bits they fix. Host bits
  that must be zero are then absent, and containment is the prefix order.
 */
module Cidr {

  datatype Family = V4 | V6

  function Width(family: Family): nat {
    if family.V4? then 32 else 128
  }

  datatype AnyAddress = Address(family: Family, bits: seq<bool>)
  type Address = a: AnyAddress | |a.bits| == Width(a.family) witness Address(V4, seq(32, i => false))

  datatype AnyNetwork = Network(family: Family, prefix: seq<bool>)
  type Network = n: AnyNetwork | |n.prefix| <= Width(n.family) witness Network(V4, [])

  predicate Contains(network: Network, address: Address) {
    network.family == address.family && network.prefix <= address.bits
  }

  predicate SubnetOf(inner: Network, outer: Network) {
    inner.family == outer.family && outer.prefix <= inner.prefix
  }

  /** Some block of `networks` holds the address. */
  predicate Covers(networks: set<Network>, address: Address) {
    exists n :: n in networks && Contains(n, address)
  }

  function Elements(networks: seq<Network>): (s: set<Network>)
    ensures forall n :: n in s <==> n in networks
  {
    set n | n in networks
  }

  ghost predicate CoversBlock(networks: set<Network>, block: Network) {
    forall a: Address :: Contains(block, a) ==> Covers(networks, a)
  }

  ghost predicate CoversAll(outer: set<Network>, inner: set<Network>) {
    forall a: Address :: Covers(inner, a) ==> Covers(outer, a)
  }

  // ---------- The order published prefix lists are sorted in ----------

  /** Network address first, then prefix length: on prefix bits, the dictionary order. */
  predicate BitsBefore(p: seq<bool>, q: seq<bool>) {
    if q == [] then false
    else if p == [] then true
    else if p[0] != q[0] then q[0]
    else BitsBefore(p[1..], q[1..])
  }

  predicate Before(a: Network, b: Network) {
    if a.family != b.family then a.family.V4? else BitsBefore(a.prefix, b.prefix)
  }

  lemma {:induction false} BitsTotal(p: seq<bool>, q: seq<bool>)
    ensures p == q || BitsBefore(p, q) || BitsBefore(q, p)
    ensures !(BitsBefore(p, q) && BitsBefore(q, p)) && !BitsBefore(p, p)
  {
    if p != [] && q != [] && p[0] == q[0] {
      BitsTotal(p[1..], q[1..]);
      assert p == [p[0]] + p[1..] && q == [q[0]] + q[1..];
    }
    if p != [] {
      BitsTotal(p[1..], p[1..]);
    }
  }

  lemma {:induction false} BitsTransitive(p: seq<bool>, q: seq<bool>, r: seq<bool>)
    requires BitsBefore(p, q) && BitsBefore(q, r)
    ensures BitsBefore(p, r)
  {
    if p != [] && p[0] == q[0] == r[0] {
      BitsTransitive(p[1..], q[1..], r[1..]);
    }
  }

  predicate Ascending(networks: seq<Network>) {
    forall i, j :: 0 <= i < j < |networks| ==> Before(networks[i], networks[j])
  }

  /** Insert into its place in an ascending list. */
  function Insert(network: Network, sorted: seq<Network>): (r: seq<Network>)
    requires Ascending(sorted) && network !in sorted
    ensures Ascending(r) && Elements(r) == Elements(sorted) + {network}
    decreases |sorted|, 1
  {
    if sorted == [] then [network]
    else if Before(network, sorted[0]) then
      InsertFirst(network, sorted);
      [network] + sorted
    else
      InsertLater(network, sorted);
      [sorted[0]] + Insert(network, sorted[1..])
  }

  lemma InsertFirst(network: Network, sorted: seq<Network>)
    requires Ascending(sorted) && sorted != [] && Before(network, sorted[0])
    ensures Ascending([network] + sorted)
  {
    forall j | 0 < j < |sorted| ensures Before(network, sorted[j]) {
      assert Before(sorted[0], sorted[j]);
      if network.family == sorted[0].family == sorted[j].family {
        BitsTransitive(network.prefix, sorted[0].prefix, sorted[j].prefix);
      }
    }
  }

  lemma InsertLater(network: Network, sorted: seq<Network>)
    requires Ascending(sorted) && sorted != [] && network !in sorted && !Before(network, sorted[0])
    ensures Ascending(sorted[1..]) && network !in sorted[1..]
    ensures sorted == [sorted[0]] + sorted[1..]
    ensures var r := Insert(network, sorted[1..]);
            Ascending([sorted[0]] + r) && Elements([sorted[0]] + r) == Elements(sorted) + {network}
    decreases |sorted|, 0
  {
    var rest := sorted[1..];
    var r := Insert(network, rest);
    BitsTotal(network.prefix, sorted[0].prefix);
    forall j | 0 <= j < |r| ensures Before(sorted[0], r[j]) {
      assert r[j] in Elements(r);
      if r[j] != network {
        assert r[j] in rest;
        var k :| 0 <= k < |rest| && rest[k] == r[j];
        assert sorted[k + 1] == r[j];
      }
    }
  }

  /** sorted(networks): the one ascending list of the set's elements. */
  method Sort(networks: set<Network>) returns (sorted: seq<Network>)
    ensures Ascending(sorted) && Elements(sorted) == networks
  {
    var left := networks;
    sorted := [];
    while left != {}
      invariant left <= networks && Ascending(sorted)
      invariant Elements(sorted) == networks - left
      decreases left
    {
      var n :| n in left;
      sorted := Insert(n, sorted);
      left := left - {n};
    }
  }

  /** An ascending list is determined by its elements. */
  lemma {:induction false} AscendingUnique(a: seq<Network>, b: seq<Network>)
    requires Ascending(a) && Ascending(b) && Elements(a) == Elements(b)
    ensures a == b
  {
    if b != [] {
      assert b[0] in Elements(a);
    }
    if a != [] {
      assert a[0] in Elements(b) && b != [];
      var i :| 0 <= i < |b| && b[i] == a[0];
      var j :| 0 <= j < |a| && a[j] == b[0];
      BitsTotal(a[0].prefix, b[0].prefix);
      assert a[0] == b[0];
      RestOfAscending(a);
      RestOfAscending(b);
      AscendingUnique(a[1..], b[1..]);
    }
  }

  lemma RestOfAscending(a: seq<Network>)
    requires Ascending(a) && a != []
    ensures Ascending(a[1..]) && Elements(a[1..]) == Elements(a) - {a[0]}
    ensures a == [a[0]] + a[1..]
  {
    BitsTotal(a[0].prefix, a[0].prefix);
    forall n ensures n in a[1..] <==> n in a && n != a[0] {
      if n in a[1..] {
        var k :| 0 <= k < |a[1..]| && a[1..][k] == n;
        assert Before(a[0], a[k + 1]);
      }
    }
  }

  // ---------- Collapsing, and what a containment test on it means ----------

  function Supernet(n: Network): Network {
    if n.prefix == [] then n else Network(n.family, n.prefix[..|n.prefix| - 1])
  }

  /** The two halves of a block. */
  function Half(n: Network, upper: bool): Network
    requires |n.prefix| < Width(n.family)
  {
    Network(n.family, n.prefix + [upper])
  }

  /** No two blocks are the halves of one larger block. */
  ghost predicate NoPair(blocks: set<Network>) {
    forall n: Network | |n.prefix| < Width(n.family) :: !(Half(n, false) in blocks && Half(n, true) in blocks)
  }

  /** What collapse_addresses documents: the same addresses, with nothing left to merge. */
  ghost predicate IsCollapse(networks: set<Network>, blocks: set<Network>) {
    && NoPair(blocks)
    && (forall a: Address :: Covers(networks, a) <==> Covers(blocks, a))
  }

  /**
    The exactness of the containment test: a block lies inside a single collapsed
    block if and only if the collapsed blocks together cover all its addresses.
   */
  lemma {:induction false} CoveredByOne(block: Network, blocks: set<Network>)
    requires NoPair(blocks)
    ensures CoversBlock(blocks, block) <==> exists n :: n in blocks && SubnetOf(block, n)
    decreases Width(block.family) - |block.prefix|
  {
    if CoversBlock(blocks, block) {
      if |block.prefix| == Width(block.family) {
        var a: Address := Address(block.family, block.prefix);
        assert Contains(block, a);
        var n :| n in blocks && Contains(n, a);
        assert SubnetOf(block, n);
      } else {
        var low, high := Half(block, false), Half(block, true);
        var n := HalfCovered(block, false, blocks);
        var m := HalfCovered(block, true, blocks);
        if n == low && m == high {
          assert false;
        } else if n != low {
          LargerThanHalf(block, false, n);
        } else {
          LargerThanHalf(block, true, m);
        }
      }
    }
    if n :| n in blocks && SubnetOf(block, n) {
      forall a: Address | Contains(block, a) ensures Covers(blocks, a) {
        assert Contains(n, a);
      }
    }
  }

  lemma {:induction false} HalfCovered(block: Network, upper: bool, blocks: set<Network>) returns (n: Network)
    requires |block.prefix| < Width(block.family) && NoPair(blocks) && CoversBlock(blocks, block)
    ensures n in blocks && SubnetOf(Half(block, upper), n)
    decreases Width(block.family) - |block.prefix|, 0
  {
    var half := Half(block, upper);
    forall a: Address | Contains(half, a) ensures Covers(blocks, a) {
      assert Contains(block, a) by {
        assert block.prefix <= half.prefix;
      }
    }
    CoveredByOne(half, blocks);
    n :| n in blocks && SubnetOf(half, n);
  }

  lemma LargerThanHalf(block: Network, upper: bool, n: Network)
    requires |block.prefix| < Width(block.family)
    requires SubnetOf(Half(block, upper), n) && n != Half(block, upper)
    ensures SubnetOf(block, n)
  {
    var half := Half(block, upper);
    if |n.prefix| < |half.prefix| {
      assert n.prefix == half.prefix[..|n.prefix|] == block.prefix[..|n.prefix|];
    }
  }

  /** Two different blocks with one supernet cover what the supernet covers. */
  lemma MergeCovers(a: Network, b: Network, address: Address)
    requires a != b && Supernet(a) == Supernet(b)
    ensures Contains(Supernet(a), address) <==> Contains(a, address) || Contains(b, address)
  {
    var s := Supernet(a);
    if a.prefix != [] && b.prefix != [] {
      var k := |s.prefix|;
      assert a.prefix == s.prefix + [a.prefix[k]] && b.prefix == s.prefix + [b.prefix[k]];
      assert a.prefix[k] != b.prefix[k];
      if Contains(s, address) {
        assert |address.bits| > k;
        assert address.bits[..k + 1] == s.prefix + [address.bits[k]];
        assert address.bits[..k + 1] == if address.bits[k] == a.prefix[k] then a.prefix else b.prefix;
      }
    }
  }

  /** Each slot holds a block under its supernet, so no two held blocks are siblings. */
  ghost predicate Slotted(slots: map<Network, Network>) {
    forall s :: s in slots ==> Supernet(slots[s]) == s
  }

  lemma SlotsUnpaired(slots: map<Network, Network>, blocks: set<Network>)
    requires Slotted(slots) && blocks <= slots.Values
    ensures NoPair(blocks)
  {
    forall n: Network, upper: bool | |n.prefix| < Width(n.family) && Half(n, upper) in blocks
      ensures n in slots && slots[n].prefix[|n.prefix|..] == [upper]
    {
      var s :| s in slots && slots[s] == Half(n, upper);
      assert s == Supernet(Half(n, upper)) == n;
    }
  }

  lemma {:induction false} InsideMaximal(n: Network, all: set<Network>, blocks: set<Network>)
    requires n in all
    requires blocks == set b | b in all && forall m :: m in all && SubnetOf(b, m) ==> m == b
    ensures exists m :: m in blocks && SubnetOf(n, m)
    decreases |n.prefix|
  {
    if m :| m in all && SubnetOf(n, m) && m != n {
      assert |m.prefix| != |n.prefix|;
      InsideMaximal(m, all, blocks);
    } else {
      assert n in blocks;
    }
  }

  /** One sibling merge leaves the covered addresses alone. */
  lemma MergeStep(waiting: set<Network>, slots: map<Network, Network>, n: Network)
    requires Slotted(slots) && n in waiting && Supernet(n) in slots && slots[Supernet(n)] != n
    ensures forall a: Address ::
      Covers(waiting, a) || Covers(slots.Values, a) <==>
      Covers(waiting - {n} + {Supernet(n)}, a) || Covers((slots - {Supernet(n)}).Values, a)
  {
    var s := Supernet(n);
    var other := slots[s];
    var rest := slots - {s};
    forall a: Address
      ensures Covers(waiting, a) || Covers(slots.Values, a) <==>
              Covers(waiting - {n} + {s}, a) || Covers(rest.Values, a)
    {
      MergeCovers(n, other, a);
      if m :| m in waiting && Contains(m, a) {
        assert m == n || m in waiting - {n} + {s};
        assert m == n ==> s in waiting - {n} + {s};
      }
      if m :| m in slots.Values && Contains(m, a) {
        var t :| t in slots && slots[t] == m;
        assert t == s || rest[t] == m;
        assert s in waiting - {n} + {s};
      }
      if m :| m in waiting - {n} + {s} && Contains(m, a) {
        assert m in waiting || m == s;
        assert other in slots.Values;
      }
      if m :| m in rest.Values && Contains(m, a) {
        var t :| t in rest && rest[t] == m;
        assert slots[t] == m;
      }
    }
  }

  lemma OccupyStep(waiting: set<Network>, slots: map<Network, Network>, n: Network)
    requires n in waiting && Supernet(n) !in slots
    ensures forall a: Address ::
      Covers(waiting, a) || Covers(slots.Values, a) <==>
      Covers(waiting - {n}, a) || Covers(slots[Supernet(n) := n].Values, a)
  {
    var after := slots[Supernet(n) := n];
    assert after.Values == slots.Values + {n} by {
      assert after[Supernet(n)] == n;
      forall m | m in slots.Values ensures m in after.Values {
        var t :| t in slots && slots[t] == m;
        assert after[t] == m;
      }
    }
    forall a: Address
      ensures Covers(waiting, a) || Covers(slots.Values, a) <==> Covers(waiting - {n}, a) || Covers(after.Values, a)
    {
      if m :| m in waiting && Contains(m, a) {
        assert m in waiting - {n} || m in after.Values;
      }
      if m :| m in slots.Values && Contains(m, a) {
        assert m in after.Values;
      }
      if m :| m in waiting - {n} && Contains(m, a) {
        assert m in waiting;
      }
      if m :| m in after.Values && Contains(m, a) {
        assert m in slots.Values || m in waiting;
      }
    }
  }

  lemma DuplicateStep(waiting: set<Network>, held: set<Network>, n: Network)
    requires n in held
    ensures forall a: Address ::
      Covers(waiting, a) || Covers(held, a) <==> Covers(waiting - {n}, a) || Covers(held, a)
  {
    forall a: Address | Covers(waiting, a) ensures Covers(waiting - {n}, a) || Covers(held, a) {
      var m :| m in waiting && Contains(m, a);
      assert m in waiting - {n} || m in held;
    }
  }

  /**
    Merge sibling blocks pairwise until none is left, then drop the blocks that lie
    inside another. `slots` holds at most one block for each supernet.
   */
  method Collapse(networks: set<Network>) returns (blocks: set<Network>)
    ensures IsCollapse(networks, blocks)
  {
    var waiting := networks;
    var slots: map<Network, Network> := map[];
    while waiting != {}
      invariant Slotted(slots)
      invariant forall a: Address :: Covers(networks, a) <==> Covers(waiting, a) || Covers(slots.Values, a)
      decreases |waiting| + |slots|, |waiting|
    {
      var n :| n in waiting;
      var supernet := Supernet(n);
      if supernet !in slots {
        OccupyStep(waiting, slots, n);
        waiting, slots := waiting - {n}, slots[supernet := n];
      } else if slots[supernet] == n {
        DuplicateStep(waiting, slots.Values, n);
        waiting := waiting - {n};
      } else {
        MergeStep(waiting, slots, n);
        assert |waiting - {n} + {supernet}| <= |waiting|;
        waiting, slots := waiting - {n} + {supernet}, slots - {supernet};
      }
    }
    var all := slots.Values;
    blocks := set b | b in all && forall m :: m in all && SubnetOf(b, m) ==> m == b;
    SlotsUnpaired(slots, blocks);
    forall a: Address ensures Covers(networks, a) <==> Covers(blocks, a) {
      if Covers(networks, a) {
        var n :| n in all && Contains(n, a);
        InsideMaximal(n, all, blocks);
        var m :| m in blocks && SubnetOf(n, m);
        assert Contains(m, a);
      }
    }
  }
}
