/**
 * Pointer trees of an ext2 inode.  An inode names data blocks directly and through
 * one to three levels of table blocks; a zero pointer is a hole.  The tree is what the
 * pointers on disk mean, and every operation of the driver is specified on it.
 */
module BlockTree {
  import opened Bytes

  type Block = seq<byte>
  type Disk = seq<Block>

  datatype Tree = Hole | Data(block: nat) | Node(block: nat, kids: seq<Tree>)

  function Read(d: Disk, b: nat): Block {
    if b < |d| then d[b] else []
  }

  /** The tree of the given height that starts at pointer `b`. */
  function Load(d: Disk, b: nat, level: nat): Tree
    decreases level
  {
    if b == 0 then Hole
    else if level == 0 then Data(b)
    else
      var t := Table(Read(d, b));
      Node(b, seq(|t|, i requires 0 <= i < |t| => Load(d, t[i], level - 1)))
  }

  function Root(t: Tree): nat {
    if t.Hole? then 0 else t.block
  }

  lemma RootOfLoad(d: Disk, b: nat, level: nat)
    ensures Root(Load(d, b, level)) == b
  {
  }

  /** Every block the tree names. */
  function Blocks(t: Tree): set<nat>
    decreases t, 0
  {
    match t
    case Hole => {}
    case Data(b) => {b}
    case Node(b, kids) => {b} + BlocksOfAll(kids)
  }

  function BlocksOfAll(kids: seq<Tree>): set<nat>
    decreases kids, 1
  {
    if kids == [] then {} else BlocksOfAll(kids[..|kids| - 1]) + Blocks(kids[|kids| - 1])
  }

  /** The table blocks of the tree. */
  function Tables(t: Tree): set<nat>
    decreases t, 0
  {
    match t
    case Hole => {}
    case Data(_) => {}
    case Node(b, kids) => {b} + TablesOfAll(kids)
  }

  function TablesOfAll(kids: seq<Tree>): set<nat>
    decreases kids, 1
  {
    if kids == [] then {} else TablesOfAll(kids[..|kids| - 1]) + Tables(kids[|kids| - 1])
  }

  lemma {:induction false} BlocksOfKid(kids: seq<Tree>, k: nat)
    requires k < |kids|
    ensures Blocks(kids[k]) <= BlocksOfAll(kids) && Tables(kids[k]) <= TablesOfAll(kids)
  {
    if k < |kids| - 1 {
      BlocksOfKid(kids[..|kids| - 1], k);
    }
  }

  lemma {:induction false} KidOfBlock(kids: seq<Tree>, x: nat) returns (k: nat)
    requires x in BlocksOfAll(kids)
    ensures k < |kids| && x in Blocks(kids[k])
  {
    k := |kids| - 1;
    if x !in Blocks(kids[k]) {
      k := KidOfBlock(kids[..|kids| - 1], x);
    }
  }

  lemma {:induction false} KidOfTable(kids: seq<Tree>, x: nat) returns (k: nat)
    requires x in TablesOfAll(kids)
    ensures k < |kids| && x in Tables(kids[k])
  {
    k := |kids| - 1;
    if x !in Tables(kids[k]) {
      k := KidOfTable(kids[..|kids| - 1], x);
    }
  }

  lemma {:induction false} BlocksOfAllMonotone(kids: seq<Tree>, kids': seq<Tree>)
    requires |kids| == |kids'|
    requires forall k :: 0 <= k < |kids| ==> Blocks(kids[k]) <= Blocks(kids'[k]) && Tables(kids[k]) <= Tables(kids'[k])
    ensures BlocksOfAll(kids) <= BlocksOfAll(kids') && TablesOfAll(kids) <= TablesOfAll(kids')
  {
    if kids != [] {
      BlocksOfAllMonotone(kids[..|kids| - 1], kids'[..|kids| - 1]);
    }
  }

  lemma {:induction false} TablesAreBlocks(t: Tree)
    ensures Tables(t) <= Blocks(t)
  {
    if t.Node? {
      forall x | x in TablesOfAll(t.kids)
        ensures x in BlocksOfAll(t.kids)
      {
        var k := KidOfTable(t.kids, x);
        TablesAreBlocks(t.kids[k]);
        BlocksOfKid(t.kids, k);
      }
    }
  }

  /** No block is named from two places of the tree. */
  ghost predicate Distinct(t: Tree) {
    t.Node? ==>
      && (forall k :: 0 <= k < |t.kids| ==> t.block !in Blocks(t.kids[k]))
      && (forall j, k :: 0 <= j < k < |t.kids| ==> Blocks(t.kids[j]) !! Blocks(t.kids[k]))
      && (forall k :: 0 <= k < |t.kids| ==> Distinct(t.kids[k]))
  }

  /** Full fan-out at every table: what a tree read from blocks of `4 * e` bytes looks like. */
  ghost predicate Shaped(t: Tree, e: nat, level: nat) {
    match t
    case Hole => true
    case Data(b) => level == 0 && b != 0
    case Node(b, kids) =>
      level > 0 && b != 0 && |kids| == e && forall k :: 0 <= k < e ==> Shaped(kids[k], e, level - 1)
  }

  ghost predicate Geometry(d: Disk, e: nat) {
    e > 0 && forall b :: 0 <= b < |d| ==> |d[b]| == 4 * e
  }

  lemma {:induction false} LoadShaped(d: Disk, e: nat, b: nat, level: nat)
    requires Geometry(d, e)
    requires forall x :: x in Blocks(Load(d, b, level)) ==> x < |d|
    ensures Shaped(Load(d, b, level), e, level)
    decreases level
  {
    var t := Load(d, b, level);
    if t.Node? {
      assert b in Blocks(t);
      var tab := Table(Read(d, b));
      assert |tab| == e;
      forall k | 0 <= k < e
        ensures Shaped(t.kids[k], e, level - 1)
      {
        BlocksOfKid(t.kids, k);
        LoadShaped(d, e, tab[k], level - 1);
      }
    }
  }

  /** A tree depends on its table blocks only. */
  lemma {:induction false} LoadFrame(d: Disk, d': Disk, b: nat, level: nat)
    requires forall x :: x in Tables(Load(d, b, level)) ==> Read(d, x) == Read(d', x)
    ensures Load(d', b, level) == Load(d, b, level)
    decreases level
  {
    var t := Load(d, b, level);
    if t.Node? {
      assert b in Tables(t);
      var t' := Load(d', b, level);
      var tab := Table(Read(d, b));
      forall k | 0 <= k < |tab|
        ensures t'.kids[k] == t.kids[k]
      {
        BlocksOfKid(t.kids, k);
        LoadFrame(d, d', tab[k], level - 1);
      }
      assert t'.kids == t.kids;
    }
  }

  // ----- index arithmetic

  /** How many file blocks a tree of this height covers. */
  function Span(e: nat, level: nat): nat {
    if level == 0 then 1 else e * Span(e, level - 1)
  }

  lemma {:induction false} SpanPositive(e: nat, level: nat)
    requires e > 0
    ensures Span(e, level) > 0
  {
    if level > 0 {
      SpanPositive(e, level - 1);
    }
  }

  lemma MulMonotone(a: int, b: int, c: nat)
    ensures a <= b ==> a * c <= b * c
  {
  }

  lemma SplitIndex(i: nat, e: nat, c: nat)
    requires c > 0 && i < e * c
    ensures 0 <= i / c < e && 0 <= i % c < c
    ensures i == i / c * c + i % c
  {
    MulMonotone(e, i / c, c);
  }

  lemma JoinIndex(k: nat, o: nat, e: nat, c: nat)
    requires o < c && k < e
    ensures k * c + o < e * c
    ensures (k * c + o) / c == k && (k * c + o) % c == o
  {
    var i := k * c + o;
    MulMonotone(k + 1, e, c);
    assert i == i / c * c + i % c;
    SameQuotient(k, o, i / c, i % c, c);
  }

  lemma SameQuotient(k: int, o: nat, q: int, r: nat, c: nat)
    requires k * c + o == q * c + r && o < c && r < c
    ensures k == q && o == r
  {
    if k < q {
      MulMonotone(k + 1, q, c);
    } else {
      MulMonotone(q + 1, k, c);
    }
  }

  /** A block belongs to one child only. */
  lemma OneChild(t: Tree, j: nat, k: nat, x: nat)
    requires t.Node? && Distinct(t) && j < |t.kids| && k < |t.kids|
    requires x in Blocks(t.kids[j]) && x in Blocks(t.kids[k])
    ensures j == k
  {
  }

  /** The block at file index `i` under the tree, or zero for a hole. */
  function Lookup(t: Tree, e: nat, level: nat, i: nat): nat
    requires e > 0
  {
    match t
    case Hole => 0
    case Data(b) => b
    case Node(_, kids) =>
      if level == 0 || i >= Span(e, level) then 0
      else
        SpanPositive(e, level - 1);
        var k := i / Span(e, level - 1);
        if k < |kids| then Lookup(kids[k], e, level - 1, i % Span(e, level - 1)) else 0
  }

  lemma {:induction false} LookupInBlocks(t: Tree, e: nat, level: nat, i: nat)
    requires e > 0 && Shaped(t, e, level) && Distinct(t)
    ensures var b := Lookup(t, e, level, i); b != 0 ==> b in Blocks(t) && b !in Tables(t)
  {
    if t.Node? && i < Span(e, level) {
      SpanPositive(e, level - 1);
      var c := Span(e, level - 1);
      SplitIndex(i, e, c);
      var k := i / c;
      LookupInBlocks(t.kids[k], e, level - 1, i % c);
      var b := Lookup(t, e, level, i);
      if b != 0 {
        BlocksOfKid(t.kids, k);
        if b in TablesOfAll(t.kids) {
          var j := KidOfTable(t.kids, b);
          TablesAreBlocks(t.kids[j]);
          OneChild(t, j, k, b);
        }
      }
    }
  }

  /** In a tree without shared blocks, different indices have different data blocks. */
  lemma {:induction false} LookupInjective(t: Tree, e: nat, level: nat, i: nat, j: nat)
    requires e > 0 && Shaped(t, e, level) && Distinct(t)
    requires i < Span(e, level) && j < Span(e, level)
    requires Lookup(t, e, level, i) == Lookup(t, e, level, j) != 0
    ensures i == j
  {
    if t.Node? {
      SpanPositive(e, level - 1);
      var c := Span(e, level - 1);
      SplitIndex(i, e, c);
      SplitIndex(j, e, c);
      LookupInBlocks(t.kids[i / c], e, level - 1, i % c);
      LookupInBlocks(t.kids[j / c], e, level - 1, j % c);
      OneChild(t, i / c, j / c, Lookup(t, e, level, i));
      LookupInjective(t.kids[i / c], e, level - 1, i % c, j % c);
    }
  }

  // ----- truncation


  ghost predicate AllHoles(kids: seq<Tree>) {
    forall k :: 0 <= k < |kids| ==> kids[k].Hole?
  }

  /**
   * What a truncation to `keep` blocks leaves of a tree whose first index is `base`: whole
   * subtrees on either side of the cut are kept or dropped, and a table that the cut
   * leaves without entries goes too.
   */
  ghost function Prune(t: Tree, e: nat, level: nat, base: nat, keep: nat): Tree
    decreases t
  {
    if t.Hole? || keep >= base + Span(e, level) then t
    else if keep <= base || level == 0 then Hole
    else if t.Data? then t
    else
      var kids := seq(|t.kids|, k requires 0 <= k < |t.kids| =>
        Prune(t.kids[k], e, level - 1, base + k * Span(e, level - 1), keep));
      if AllHoles(kids) then Hole else Node(t.block, kids)
  }

  /** The children of a table the cut goes through, each cut on its own. */
  ghost function PrunedKids(t: Tree, e: nat, level: nat, base: nat, keep: nat): (kids: seq<Tree>)
    requires t.Node? && level > 0
    ensures |kids| == |t.kids|
  {
    seq(|t.kids|, k requires 0 <= k < |t.kids| =>
      Prune(t.kids[k], e, level - 1, base + k * Span(e, level - 1), keep))
  }

  /** A truncated tree is the whole tree, nothing, or the same table over truncated children. */
  lemma PruneCases(t: Tree, e: nat, level: nat, base: nat, keep: nat)
    ensures var p := Prune(t, e, level, base, keep);
      || p == t || p == Hole
      || (t.Node? && level > 0 && p == Node(t.block, PrunedKids(t, e, level, base, keep)))
  {
  }

  lemma PruneCut(t: Tree, e: nat, level: nat, base: nat, keep: nat)
    requires t.Node? && level > 0 && base < keep < base + Span(e, level)
    ensures var kids := PrunedKids(t, e, level, base, keep);
            Prune(t, e, level, base, keep) == if AllHoles(kids) then Hole else Node(t.block, kids)
  {
  }

  lemma PrunedKidIs(t: Tree, e: nat, level: nat, base: nat, keep: nat, k: nat)
    requires t.Node? && level > 0 && k < |t.kids|
    ensures PrunedKids(t, e, level, base, keep)[k] == Prune(t.kids[k], e, level - 1, base + k * Span(e, level - 1), keep)
  {
  }

  lemma {:induction false} PruneShrinks(t: Tree, e: nat, level: nat, base: nat, keep: nat)
    ensures Blocks(Prune(t, e, level, base, keep)) <= Blocks(t)
    ensures Tables(Prune(t, e, level, base, keep)) <= Tables(t)
  {
    hide Prune, PrunedKids, Span;
    PruneCases(t, e, level, base, keep);
    if t.Node? && level > 0 {
      var kids := PrunedKids(t, e, level, base, keep);
      forall k | 0 <= k < |t.kids|
        ensures Blocks(kids[k]) <= Blocks(t.kids[k]) && Tables(kids[k]) <= Tables(t.kids[k])
      {
        PrunedKidIs(t, e, level, base, keep, k);
        PruneShrinks(t.kids[k], e, level - 1, base + k * Span(e, level - 1), keep);
      }
      BlocksOfAllMonotone(kids, t.kids);
    }
  }

  lemma {:induction false} PruneDistinct(t: Tree, e: nat, level: nat, base: nat, keep: nat)
    requires Distinct(t)
    ensures Distinct(Prune(t, e, level, base, keep))
  {
    hide Prune, PrunedKids, Span;
    PruneCases(t, e, level, base, keep);
    if t.Node? && level > 0 {
      var kids := PrunedKids(t, e, level, base, keep);
      forall k | 0 <= k < |t.kids|
        ensures Distinct(kids[k]) && Blocks(kids[k]) <= Blocks(t.kids[k])
      {
        PrunedKidIs(t, e, level, base, keep, k);
        PruneDistinct(t.kids[k], e, level - 1, base + k * Span(e, level - 1), keep);
        PruneShrinks(t.kids[k], e, level - 1, base + k * Span(e, level - 1), keep);
      }
      DistinctBelow(t, Node(t.block, kids));
    }
  }

  lemma DistinctBelow(t: Tree, p: Tree)
    requires t.Node? && p.Node? && p.block == t.block && |p.kids| == |t.kids| && Distinct(t)
    requires forall k :: 0 <= k < |t.kids| ==> Distinct(p.kids[k]) && Blocks(p.kids[k]) <= Blocks(t.kids[k])
    ensures Distinct(p)
  {
  }

  /** Truncation keeps the mapping below the cut and unmaps the rest. */
  lemma {:induction false} PruneLookup(t: Tree, e: nat, level: nat, base: nat, keep: nat, i: nat)
    requires e > 0 && Shaped(t, e, level) && i < Span(e, level)
    ensures Lookup(Prune(t, e, level, base, keep), e, level, i)
         == if base + i < keep then Lookup(t, e, level, i) else 0
  {
    if t.Node? && base < keep < base + Span(e, level) {
      SpanPositive(e, level - 1);
      var c := Span(e, level - 1);
      SplitIndex(i, e, c);
      var k, o := i / c, i % c;
      PruneCut(t, e, level, base, keep);
      PrunedKidIs(t, e, level, base, keep, k);
      PruneLookup(t.kids[k], e, level - 1, base + k * c, keep, o);
      assert base + k * c + o == base + i;
    }
  }
}
