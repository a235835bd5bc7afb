/** Proof steps for walking the entries of one table block while its subtrees are cut or released. */
module TreeSteps {
  import opened Bytes
  import opened BlockTree

  lemma PrefixStep(kids: seq<Tree>, i: nat)
    requires i < |kids|
    ensures BlocksOfAll(kids[..i + 1]) == BlocksOfAll(kids[..i]) + Blocks(kids[i])
    ensures TablesOfAll(kids[..i + 1]) == TablesOfAll(kids[..i]) + Tables(kids[i])
  {
    assert kids[..i + 1][..i] == kids[..i];
  }

  lemma PrefixAll(kids: seq<Tree>)
    ensures kids[..|kids|] == kids
  {
  }

  /** The blocks of one child are apart from those of the children before it. */
  lemma {:induction false} PrefixApart(t: Tree, i: nat, k: nat)
    requires t.Node? && Distinct(t) && i <= k < |t.kids|
    ensures BlocksOfAll(t.kids[..i]) !! Blocks(t.kids[k])
  {
    if i > 0 {
      PrefixApart(t, i - 1, k);
      PrefixStep(t.kids, i - 1);
      assert Blocks(t.kids[i - 1]) !! Blocks(t.kids[k]);
    }
  }

  lemma {:induction false} PrefixWithin(kids: seq<Tree>, i: nat)
    requires i <= |kids|
    ensures BlocksOfAll(kids[..i]) <= BlocksOfAll(kids) && TablesOfAll(kids[..i]) <= TablesOfAll(kids)
    decreases |kids| - i
  {
    if i < |kids| {
      PrefixWithin(kids, i + 1);
      PrefixStep(kids, i);
    } else {
      PrefixAll(kids);
    }
  }

  lemma HolesOwnNothing(kids: seq<Tree>)
    requires AllHoles(kids)
    ensures BlocksOfAll(kids) == {} && TablesOfAll(kids) == {}
    decreases |kids|
  {
    if kids != [] {
      HolesOwnNothing(kids[..|kids| - 1]);
    }
  }

  lemma {:induction false} TablesOfAllAreBlocks(kids: seq<Tree>)
    ensures TablesOfAll(kids) <= BlocksOfAll(kids)
  {
    if kids != [] {
      TablesOfAllAreBlocks(kids[..|kids| - 1]);
      TablesAreBlocks(kids[|kids| - 1]);
    }
  }

  /** `p` lists what is left of each child of `t`. */
  ghost predicate Below(t: Tree, p: seq<Tree>) {
    && t.Node? && |p| == |t.kids|
    && forall k :: 0 <= k < |p| ==> Blocks(p[k]) <= Blocks(t.kids[k]) && Tables(p[k]) <= Tables(t.kids[k])
  }

  lemma PrunedBelow(t: Tree, e: nat, level: nat, base: nat, keep: nat)
    requires t.Node? && level > 0
    ensures Below(t, PrunedKids(t, e, level, base, keep))
  {
    hide Prune, PrunedKids, Span;
    var p := PrunedKids(t, e, level, base, keep);
    forall k | 0 <= k < |p|
      ensures Blocks(p[k]) <= Blocks(t.kids[k]) && Tables(p[k]) <= Tables(t.kids[k])
    {
      PrunedKidIs(t, e, level, base, keep, k);
      PruneShrinks(t.kids[k], e, level - 1, base + k * Span(e, level - 1), keep);
    }
  }

  lemma {:induction false} PrefixBelow(t: Tree, p: seq<Tree>, i: nat)
    requires Below(t, p) && i <= |p|
    ensures BlocksOfAll(p[..i]) <= BlocksOfAll(t.kids[..i]) && TablesOfAll(p[..i]) <= TablesOfAll(t.kids[..i])
  {
    if i > 0 {
      PrefixBelow(t, p, i - 1);
      PrefixStep(p, i - 1);
      PrefixStep(t.kids, i - 1);
    }
  }

  /** The blocks given up by the first `i` children. */
  ghost function GivenUp(t: Tree, p: seq<Tree>, i: nat): set<nat>
    requires t.Node? && i <= |p| == |t.kids|
  {
    BlocksOfAll(t.kids[..i]) - BlocksOfAll(p[..i])
  }

  lemma GivenUpStep(t: Tree, p: seq<Tree>, i: nat)
    requires Below(t, p) && Distinct(t) && i < |p|
    ensures GivenUp(t, p, i + 1) == GivenUp(t, p, i) + (Blocks(t.kids[i]) - Blocks(p[i]))
    ensures GivenUp(t, p, i) !! Blocks(t.kids[i])
    ensures |GivenUp(t, p, i + 1)| == |GivenUp(t, p, i)| + |Blocks(t.kids[i]) - Blocks(p[i])|
  {
    PrefixStep(p, i);
    PrefixStep(t.kids, i);
    PrefixApart(t, i, i);
    PrefixBelow(t, p, i);
    DisjointSize(GivenUp(t, p, i), Blocks(t.kids[i]) - Blocks(p[i]));
  }

  lemma DisjointSize(a: set<nat>, b: set<nat>)
    requires a !! b
    ensures |a + b| == |a| + |b|
  {
  }

  /** Heights of the subtrees below each entry; the same for all entries of a table block. */
  ghost function Uniform(n: nat, level: nat): (levels: seq<nat>)
    ensures |levels| == n && forall k :: 0 <= k < n ==> levels[k] == level
  {
    seq(n, _ => level)
  }

  /** The walk over a list of pointers has dealt with its first `i` entries. */
  ghost predicate Walked(t: Tree, p: seq<Tree>, levels: seq<nat>, d0: Disk, d: Disk, table: seq<word>, i: nat,
                         used0: set<nat>, used: set<nat>, freed: nat)
    requires t.Node? && |p| == |t.kids| == |levels| && i <= |p|
  {
    && |table| == |t.kids|
    && (forall k :: 0 <= k < i ==> Load(d, table[k], levels[k]) == p[k])
    && (forall k :: i <= k < |table| ==> Load(d, table[k], levels[k]) == t.kids[k])
    && |d| == |d0| && (forall b :: b !in TablesOfAll(p[..i]) ==> Read(d, b) == Read(d0, b))
    && used == used0 - GivenUp(t, p, i)
    && freed == |GivenUp(t, p, i)|
  }

  /** What dealing with one entry must achieve. */
  ghost predicate EntryDone(before: Tree, after: Tree, level: nat, d: Disk, d': Disk, c: nat, used: set<nat>, used': set<nat>, f: nat) {
    && Load(d', c, level) == after
    && |d'| == |d| && (forall b :: b !in Tables(after) ==> Read(d', b) == Read(d, b))
    && used' == used - (Blocks(before) - Blocks(after))
    && f == |Blocks(before) - Blocks(after)|
  }

  lemma WalkStart(t: Tree, p: seq<Tree>, levels: seq<nat>, d: Disk, table: seq<word>, used: set<nat>)
    requires t.Node? && |p| == |t.kids| == |table| == |levels|
    requires forall k :: 0 <= k < |table| ==> Load(d, table[k], levels[k]) == t.kids[k]
    ensures Walked(t, p, levels, d, d, table, 0, used, used, 0)
  {
  }

  lemma OtherChildSame(t: Tree, p: seq<Tree>, i: nat, k: nat, other: Tree, level: nat, d: Disk, d': Disk, c: nat)
    requires Below(t, p) && Distinct(t) && i < |p| && k < |p| && i != k
    requires other == t.kids[k] || other == p[k]
    requires Load(d, c, level) == other
    requires forall b :: b !in Tables(p[i]) ==> Read(d', b) == Read(d, b)
    ensures Load(d', c, level) == other
  {
    hide Load, Read;
    TablesAreBlocks(other);
    TablesAreBlocks(p[i]);
    assert Blocks(t.kids[i]) !! Blocks(t.kids[k]) by {
      if i < k {
        assert Blocks(t.kids[i]) !! Blocks(t.kids[k]);
      } else {
        assert Blocks(t.kids[k]) !! Blocks(t.kids[i]);
      }
    }
    LoadFrame(d, d', c, level);
  }

  lemma WalkStep(t: Tree, p: seq<Tree>, levels: seq<nat>, d0: Disk, d: Disk, table: seq<word>, i: nat,
                 used0: set<nat>, used: set<nat>, freed: nat, d': Disk, c: word, used': set<nat>, f: nat)
    requires Below(t, p) && Distinct(t) && i < |p| == |levels|
    requires Walked(t, p, levels, d0, d, table, i, used0, used, freed)
    requires EntryDone(t.kids[i], p[i], levels[i], d, d', c, used, used', f)
    ensures Walked(t, p, levels, d0, d', table[i := c], i + 1, used0, used', freed + f)
    ensures Load(d', c, levels[i]) == p[i]
  {
    hide Load, Read, GivenUp, Distinct, Blocks, BlocksOfAll, Tables, TablesOfAll;
    GivenUpStep(t, p, i);
    PrefixStep(p, i);
    var table' := table[i := c];
    forall k | 0 <= k < i
      ensures Load(d', table'[k], levels[k]) == p[k]
    {
      OtherChildSame(t, p, i, k, p[k], levels[k], d, d', table[k]);
    }
    forall k | i < k < |table|
      ensures Load(d', table'[k], levels[k]) == t.kids[k]
    {
      OtherChildSame(t, p, i, k, t.kids[k], levels[k], d, d', table[k]);
    }
  }
}
