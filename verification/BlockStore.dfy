/**
 * The volume as the block layer sees it: disk blocks and the block allocator, and the
 * recursive walks over indirect tables that look blocks up, cut a tail off and release a tree.
 */
module BlockStore {
  import opened Bytes
  import opened BlockTree
  import opened TreeSteps
  import opened ItemAllocator

  /** A tree that owns its blocks: no block twice, all of them allocated. */
  ghost predicate Owns(t: Tree, used: set<nat>) {
    Distinct(t) && Blocks(t) <= used
  }

  lemma {:induction false} ZeroNotLoaded(d: Disk, b: nat, level: nat)
    ensures 0 !in Blocks(Load(d, b, level))
    decreases level
  {
    var t := Load(d, b, level);
    if t.Node? && 0 in BlocksOfAll(t.kids) {
      var k := KidOfBlock(t.kids, 0);
      ZeroNotLoaded(d, Table(Read(d, b))[k], level - 1);
    }
  }

  lemma OwnsKid(t: Tree, used: set<nat>, k: nat)
    requires t.Node? && Owns(t, used) && k < |t.kids|
    ensures Owns(t.kids[k], used) && t.block in used && t.block !in Blocks(t.kids[k])
  {
    BlocksOfKid(t.kids, k);
  }

  class Store {
    const e: nat
    const items: Items
    var disk: Disk

    /** Blocks have `4 * e` bytes and every block number the allocator knows is on the disk. */
    ghost predicate Valid()
      reads this, items
    {
      && Geometry(disk, e) && items.Valid()
      && items.layout.bias == 0 && items.layout.total <= |disk| && |disk| <= 0x1_0000_0000
    }

    ghost function Used(): set<nat>
      requires Valid()
      reads this, items
    {
      items.Used()
    }

    /** How many blocks are free, as the superblock counts them. */
    function Room(): nat
      reads items
    {
      items.superFree
    }

    constructor (e: nat, items: Items, disk: Disk)
      requires Geometry(disk, e) && items.Valid()
      requires items.layout.bias == 0 && items.layout.total <= |disk| && |disk| <= 0x1_0000_0000
      ensures Valid() && this.e == e && this.items == items && this.disk == disk
    {
      this.e, this.items, this.disk := e, items, disk;
    }

    lemma UsedOnDisk()
      requires Valid()
      ensures forall b :: b in Used() ==> 0 <= b < |disk| && Known(items.layout, b)
    {
    }

    method ReadTable(block: nat) returns (table: seq<word>)
      requires Valid() && block < |disk|
      ensures table == Table(Read(disk, block)) && |table| == e
    {
      table := Table(disk[block]);
    }

    method WriteBlock(block: nat, data: Block)
      requires Valid() && block < |disk| && |data| == 4 * e
      modifies this`disk
      ensures Valid() && disk == old(disk)[block := data]
    {
      disk := disk[block := data];
    }

    /** Frees a block that is in use. */
    method FreeBlock(block: nat)
      requires Valid() && block in Used() && block != 0
      modifies items
      ensures Valid() && Used() == old(Used()) - {block}
    {
      UsedOnDisk();
      var ok := items.Free(block);
    }

    /** Looks a file block up through the indirect tables. */
    method BlockFromIndirect(block: nat, level: nat, index: nat) returns (b: nat)
      requires Valid() && Owns(Load(disk, block, level), Used())
      ensures b == if level == 0 then 0 else Lookup(Load(disk, block, level), e, level, index)
      decreases level
    {
      hide Counted, TakenSet, Distinct;
      if block == 0 || level == 0 || index >= Span(e, level) {
        return 0;
      }
      ghost var t := Load(disk, block, level);
      UsedOnDisk();
      assert block in Blocks(t);
      var table := ReadTable(block);
      SpanPositive(e, level - 1);
      SplitIndex(index, e, Span(e, level - 1));
      if level == 1 {
        return table[index];
      }
      var k := index / Span(e, level - 1);
      OwnsKid(t, Used(), k);
      b := BlockFromIndirect(table[k], level - 1, index % Span(e, level - 1));
    }

    /** Releases what one table entry points to: a data block, or a subtree. */
    method ReleaseEntry(c: nat, level: nat) returns (freed: nat)
      requires Valid() && Owns(Load(disk, c, level), Used())
      modifies items
      ensures Valid() && Used() == old(Used()) - Blocks(Load(disk, c, level))
      ensures freed == |Blocks(Load(disk, c, level))|
      decreases level, 1
    {
      hide Counted, TakenSet;
      if c == 0 {
        return 0;
      }
      if level == 0 {
        FreeBlock(c);
        return 1;
      }
      freed := ReleaseTree(c, level);
    }

    /** Releases a whole tree: every data and table block of it is freed once. */
    method ReleaseTree(block: nat, level: nat) returns (freed: nat)
      requires Valid() && level > 0 && Owns(Load(disk, block, level), Used())
      modifies items
      ensures Valid() && Used() == old(Used()) - Blocks(Load(disk, block, level))
      ensures freed == |Blocks(Load(disk, block, level))|
      decreases level, 0
    {
      hide Counted, TakenSet, Load, Distinct, GivenUp, Blocks, Owns, AllHoles;
      freed := 0;
      LoadTable(disk, block, level);
      if block == 0 {
        return;
      }
      ghost var t := Load(disk, block, level);
      ghost var used0 := Used();
      OwnsRoot(t, used0);
      UsedOnDisk();
      var table := ReadTable(block);
      ghost var holes := Holes(|table|);
      NothingGivenUp(t, holes);
      for i := 0 to |table|
        invariant Valid() && Used() == used0 - GivenUp(t, holes, i) && freed == |GivenUp(t, holes, i)|
      {
        ReleaseStep(t, holes, used0, i);
        var f := ReleaseEntry(table[i], level - 1);
        freed := freed + f;
      }
      AllGivenUp(t, holes);
      FreeBlock(block);
      freed := freed + 1;
    }

    /** Cuts what one table entry points to down to the blocks below `keep`. */
    method DropEntry(c: word, level: nat, base: nat, keep: nat) returns (c': word, f: nat)
      requires Valid() && Owns(Load(disk, c, level), Used())
      modifies this`disk, items
      ensures Valid()
      ensures var t := old(Load(disk, c, level));
              EntryDone(t, Prune(t, e, level, base, keep), level, old(disk), disk, c', old(Used()), Used(), f)
      decreases level, 1
    {
      hide Counted, TakenSet, Distinct;
      if c == 0 {
        return 0, 0;
      }
      if level == 0 {
        if base >= keep {
          FreeBlock(c);
          return 0, 1;
        }
        return c, 0;
      }
      c', f := DropTail(c, level, base, keep);
    }

    /**
     * Truncates the tree under a table pointer.  What remains is the pruned tree; exactly the
     * blocks it no longer names are freed, and only surviving tables are rewritten.
     */
    method DropTail(block: word, level: nat, base: nat, keep: nat) returns (block': word, freed: nat)
      requires Valid() && level > 0 && Owns(Load(disk, block, level), Used())
      modifies this`disk, items
      ensures Valid()
      ensures var t := old(Load(disk, block, level));
              EntryDone(t, Prune(t, e, level, base, keep), level, old(disk), disk, block', old(Used()), Used(), freed)
      decreases level, 0, 2
    {
      hide Counted, TakenSet, Load, Distinct, GivenUp, Blocks, Owns, AllHoles, Walked, EntryDone, Prune, Below, Span;
      ghost var t := Load(disk, block, level);
      ghost var d0, used0 := disk, Used();
      PruneOutside(t, e, level, base, keep);
      LoadTable(disk, block, level);
      if block == 0 || keep >= base + Span(e, level) {
        NothingDone(t, level, disk, block, used0);
        return block, 0;
      }
      if keep <= base {
        freed := ReleaseTree(block, level);
        AllDone(t, level, disk, used0, Used(), freed);
        return 0, freed;
      }
      block', freed := CutTable(block, level, base, keep);
    }

    /** The cut goes through this table: cuts every entry, then drops or rewrites the table. */
    method CutTable(block: word, level: nat, base: nat, keep: nat) returns (block': word, freed: nat)
      requires Valid() && level > 0 && Owns(Load(disk, block, level), Used())
      requires block != 0 && base < keep < base + Span(e, level)
      modifies this`disk, items
      ensures Valid()
      ensures var t := old(Load(disk, block, level));
              EntryDone(t, Prune(t, e, level, base, keep), level, old(disk), disk, block', old(Used()), Used(), freed)
      decreases level, 0, 1
    {
      hide Counted, TakenSet, Load, Distinct, GivenUp, Blocks, Owns, AllHoles, Walked, EntryDone, Prune, Below, Span;
      ghost var t := Load(disk, block, level);
      ghost var d0, used0 := disk, Used();
      LoadTable(disk, block, level);
      OwnsRoot(t, used0);
      UsedOnDisk();
      ghost var p := PrunedKids(t, e, level, base, keep);
      PrunedBelow(t, e, level, base, keep);
      PruneCut(t, e, level, base, keep);
      var table, left, changed;
      table, freed, left, changed := CutEntries(block, level, base, keep);
      ghost var d1 := disk;
      if !left {
        WalkEmpty(t, p, level, d0, disk, table, used0, Used(), freed);
        FreeBlock(block);
        return 0, freed + 1;
      }
      if changed {
        WriteBlock(block, Pack(table));
        TableOfPack(table);
      } else {
        OwnTableKept(t, p, level, d0, disk, table, used0, Used(), freed);
      }
      WalkEnd(t, p, level, d0, d1, table, used0, Used(), freed, disk);
      return block, freed;
    }

    /** Walks the entries of a table in order and cuts each. */
    method CutEntries(block: word, level: nat, base: nat, keep: nat)
      returns (table: seq<word>, freed: nat, left: bool, changed: bool)
      requires Valid() && level > 0 && Owns(Load(disk, block, level), Used()) && block != 0
      modifies this`disk, items
      ensures Valid()
      ensures old(Load(disk, block, level)).Node? && |table| == e
      ensures var t := old(Load(disk, block, level));
              var p := PrunedKids(t, e, level, base, keep);
              && Walked(t, p, Uniform(|p|, level - 1), old(disk), disk, table, |p|, old(Used()), Used(), freed)
              && (!left <==> AllHoles(p))
              && (!changed ==> table == Table(Read(old(disk), block)))
      decreases level, 0, 0
    {
      hide Counted, TakenSet, Load, Distinct, GivenUp, Blocks, Owns, AllHoles, Walked, EntryDone, Prune, Below, Span;
      ghost var t := Load(disk, block, level);
      ghost var d0, used0 := disk, Used();
      LoadTable(disk, block, level);
      OwnsRoot(t, used0);
      UsedOnDisk();
      table := ReadTable(block);
      ghost var p := PrunedKids(t, e, level, base, keep);
      ghost var levels := Uniform(|p|, level - 1);
      left, changed, freed := false, false, 0;
      PrunedBelow(t, e, level, base, keep);
      WalkStart(t, p, levels, disk, table, used0);
      NoHolesYet(p);
      for i := 0 to |table|
        invariant Valid() && |table| == |p| == e
        invariant Walked(t, p, levels, d0, disk, table, i, used0, Used(), freed)
        invariant !left <==> AllHoles(p[..i])
        invariant !changed ==> table == Table(Read(d0, block))
      {
        NextEntry(t, p, levels, d0, disk, table, i, used0, Used(), freed);
        ghost var d1, used1 := disk, Used();
        var c, f := DropEntry(table[i], level - 1, base + i * Span(e, level - 1), keep);
        PrunedKidIs(t, e, level, base, keep, i);
        WalkStep(t, p, levels, d0, d1, table, i, used0, used1, freed, disk, c, Used(), f);
        HolesGrow(p, level - 1, disk, c, i);
        changed := changed || level > 1 || c != table[i];
        table := table[i := c];
        freed := freed + f;
        left := left || c != 0;
      }
      PrefixAll(p);
    }
  }

  /** Until it is written back, the table block itself is as it was. */
  lemma OwnTableKept(t: Tree, p: seq<Tree>, level: nat, d0: Disk, d: Disk, table: seq<word>,
                     used0: set<nat>, used: set<nat>, freed: nat)
    requires Below(t, p) && Distinct(t) && level > 0
    requires Walked(t, p, Uniform(|p|, level - 1), d0, d, table, |p|, used0, used, freed)
    ensures Read(d, t.block) == Read(d0, t.block)
  {
    hide Read, Load;
    OwnBlock(t, p, |p|);
    PrefixBelow(t, p, |p|);
    PrefixAll(t.kids);
    TablesOfAllAreBlocks(t.kids);
  }

  lemma LoadTable(d: Disk, b: nat, level: nat)
    requires level > 0
    ensures var t := Load(d, b, level);
      if b == 0 then t == Hole && Blocks(t) == {} else
        && t.Node? && t.block == b && b in Blocks(t)
        && |t.kids| == |Table(Read(d, b))|
        && forall k :: 0 <= k < |t.kids| ==> Load(d, Table(Read(d, b))[k], level - 1) == t.kids[k]
  {
  }

  ghost function Holes(n: nat): (holes: seq<Tree>)
    ensures |holes| == n && AllHoles(holes)
  {
    seq(n, _ => Hole)
  }

  lemma OwnsRoot(t: Tree, used: set<nat>)
    requires t.Node? && Owns(t, used)
    ensures t.block in used && Blocks(t) <= used && Distinct(t)
  {
  }

  lemma NothingGivenUp(t: Tree, p: seq<Tree>)
    requires t.Node? && |p| == |t.kids|
    ensures GivenUp(t, p, 0) == {}
  {
  }

  /** Releasing the next entry takes exactly its blocks. */
  lemma ReleaseStep(t: Tree, holes: seq<Tree>, used0: set<nat>, i: nat)
    requires t.Node? && Owns(t, used0) && |holes| == |t.kids| && AllHoles(holes) && i < |holes|
    ensures Owns(t.kids[i], used0 - GivenUp(t, holes, i))
    ensures used0 - GivenUp(t, holes, i) - Blocks(t.kids[i]) == used0 - GivenUp(t, holes, i + 1)
    ensures |GivenUp(t, holes, i + 1)| == |GivenUp(t, holes, i)| + |Blocks(t.kids[i])|
  {
    hide GivenUp;
    assert Below(t, holes);
    GivenUpStep(t, holes, i);
    OwnsKid(t, used0, i);
    assert Blocks(t.kids[i]) - Blocks(holes[i]) == Blocks(t.kids[i]);
  }

  lemma AllGivenUp(t: Tree, holes: seq<Tree>)
    requires t.Node? && Distinct(t) && |holes| == |t.kids| && AllHoles(holes)
    ensures GivenUp(t, holes, |holes|) + {t.block} == Blocks(t)
    ensures t.block !in GivenUp(t, holes, |holes|)
  {
    PrefixAll(t.kids);
    PrefixAll(holes);
    HolesOwnNothing(holes);
    if t.block in BlocksOfAll(t.kids) {
      var k := KidOfBlock(t.kids, t.block);
      assert false;
    }
  }

  lemma PruneOutside(t: Tree, e: nat, level: nat, base: nat, keep: nat)
    ensures t.Hole? || keep >= base + Span(e, level) ==> Prune(t, e, level, base, keep) == t
    ensures !t.Hole? && keep <= base && keep < base + Span(e, level) ==> Prune(t, e, level, base, keep) == Hole
  {
  }

  lemma NothingDone(t: Tree, level: nat, d: Disk, c: nat, used: set<nat>)
    requires Load(d, c, level) == t
    ensures EntryDone(t, t, level, d, d, c, used, used, 0)
  {
  }

  lemma AllDone(t: Tree, level: nat, d: Disk, used: set<nat>, used': set<nat>, f: nat)
    requires used' == used - Blocks(t) && f == |Blocks(t)|
    ensures EntryDone(t, Hole, level, d, d, 0, used, used', f)
  {
    assert Blocks(t) - Blocks(Hole) == Blocks(t);
  }

  /** The next entry of the walk still points to its old subtree, which still owns its blocks. */
  lemma NextEntry(t: Tree, p: seq<Tree>, levels: seq<nat>, d0: Disk, d: Disk, table: seq<word>, i: nat,
                  used0: set<nat>, used: set<nat>, freed: nat)
    requires Below(t, p) && Owns(t, used0) && i < |p| == |levels|
    requires Walked(t, p, levels, d0, d, table, i, used0, used, freed)
    ensures |table| == |p| && Load(d, table[i], levels[i]) == t.kids[i] && Owns(t.kids[i], used)
  {
    hide GivenUp, Load;
    GivenUpStep(t, p, i);
    OwnsKid(t, used0, i);
  }

  lemma NoHolesYet(p: seq<Tree>)
    ensures AllHoles(p[..0])
  {
  }

  lemma HolesGrow(p: seq<Tree>, level: nat, d: Disk, c: nat, i: nat)
    requires i < |p| && Load(d, c, level) == p[i]
    ensures AllHoles(p[..i + 1]) <==> AllHoles(p[..i]) && c == 0
  {
    RootOfLoad(d, c, level);
    if AllHoles(p[..i + 1]) {
      assert p[..i + 1][i] == p[i];
      forall k | 0 <= k < i
        ensures p[..i][k].Hole?
      {
        assert p[..i + 1][k] == p[..i][k];
      }
    }
  }

  lemma OwnBlock(t: Tree, p: seq<Tree>, i: nat)
    requires Below(t, p) && Distinct(t) && i <= |p|
    ensures t.block !in BlocksOfAll(t.kids) && t.block !in GivenUp(t, p, i)
  {
    PrefixWithin(t.kids, i);
    if t.block in BlocksOfAll(t.kids) {
      var k := KidOfBlock(t.kids, t.block);
      assert false;
    }
  }

  /** The cut left no entry: the table itself goes, and every block of the tree is given up. */
  lemma WalkEmpty(t: Tree, p: seq<Tree>, level: nat, d0: Disk, d: Disk, table: seq<word>,
                  used0: set<nat>, used: set<nat>, freed: nat)
    requires Below(t, p) && Owns(t, used0) && level > 0 && AllHoles(p)
    requires Walked(t, p, Uniform(|p|, level - 1), d0, d, table, |p|, used0, used, freed)
    ensures t.block in used
    ensures EntryDone(t, Hole, level, d0, d, 0, used0, used - {t.block}, freed + 1)
  {
    hide Load, Read, Distinct, GivenUp, TablesOfAll, BlocksOfAll;
    LoadTable(d, 0, level);
    PrefixAll(p);
    HolesOwnNothing(p);
    AllGivenUp(t, p);
    OwnsRoot(t, used0);
    assert Blocks(t) - Blocks(Hole) == GivenUp(t, p, |p|) + {t.block};
  }

  /** The rewritten table and its cut subtrees are the pruned tree. */
  lemma WalkEnd(t: Tree, p: seq<Tree>, level: nat, d0: Disk, d: Disk, table: seq<word>,
                used0: set<nat>, used: set<nat>, freed: nat, d': Disk)
    requires Below(t, p) && Owns(t, used0) && level > 0 && t.block != 0
    requires Walked(t, p, Uniform(|p|, level - 1), d0, d, table, |p|, used0, used, freed)
    requires |d'| == |d| && Table(Read(d', t.block)) == table
    requires forall b :: b != t.block ==> Read(d', b) == Read(d, b)
    ensures EntryDone(t, Node(t.block, p), level, d0, d', t.block, used0, used, freed)
  {
    hide Read, GivenUp;
    var after := Node(t.block, p);
    PrefixAll(p);
    PrefixAll(t.kids);
    OwnBlock(t, p, |p|);
    PrefixBelow(t, p, |p|);
    LoadTable(d', t.block, level);
    var now := Load(d', t.block, level);
    forall k | 0 <= k < |p|
      ensures now.kids[k] == p[k]
    {
      KidLoads(t, p, level, d0, d, table, used0, used, freed, d', k);
    }
    assert now.kids == p;
    GivenUpAll(t, p);
  }

  lemma KidLoads(t: Tree, p: seq<Tree>, level: nat, d0: Disk, d: Disk, table: seq<word>,
                 used0: set<nat>, used: set<nat>, freed: nat, d': Disk, k: nat)
    requires Below(t, p) && Owns(t, used0) && level > 0 && k < |p|
    requires Walked(t, p, Uniform(|p|, level - 1), d0, d, table, |p|, used0, used, freed)
    requires |d'| == |d| && forall b :: b != t.block ==> Read(d', b) == Read(d, b)
    ensures |table| == |p| && Load(d', table[k], level - 1) == p[k]
  {
    hide Read, GivenUp, Load;
    PrefixAll(p);
    PrefixAll(t.kids);
    OwnBlock(t, p, |p|);
    BlocksOfKid(t.kids, k);
    TablesAreBlocks(p[k]);
    LoadFrame(d, d', table[k], level - 1);
  }

  lemma GivenUpAll(t: Tree, p: seq<Tree>)
    requires Below(t, p) && Distinct(t)
    ensures Blocks(t) - Blocks(Node(t.block, p)) == GivenUp(t, p, |p|)
  {
    OwnBlock(t, p, |p|);
    PrefixAll(p);
    PrefixAll(t.kids);
  }
}
