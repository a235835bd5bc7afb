/**
 * Files of a mounted ext2 volume: growing, reading, writing and truncating them through
 * their block pointers.
 */
module FileOps {
  import opened Bytes
  import opened Sets
  import opened BlockTree
  import opened TreeSteps
  import opened ItemAllocator
  import opened BlockStore
  import opened FileTree
  import opened FileSteps

  lemma HomeOfLevel(e: nat, i: nat, level: nat)
    requires e > 0 && 1 <= level <= 3 && First(e, 11 + level) <= i < First(e, 12 + level)
    ensures Home(e, i) == 11 + level
  {
    assert First(e, 12) == 12;
    assert First(e, 13) == First(e, 12) + Span(e, 1);
    assert First(e, 14) == First(e, 13) + Span(e, 2);
    assert First(e, 15) == First(e, 14) + Span(e, 3);
  }

  class Files {
    const store: Store

    constructor (store: Store)
      ensures this.store == store
    {
      this.store := store;
    }

    /** A consistent inode of this volume. */
    ghost predicate Ok(n: FileNode)
      reads store, store.items
    {
      store.Valid() && NodeOk(store.disk, n, store.e, store.Used())
    }

    /** Looks a file block up through the inode: direct pointers, then one to three levels. */
    method BlockForIndex(n: FileNode, i: nat) returns (b: nat)
      requires Ok(n)
      ensures b == MapBlock(store.disk, n.ptrs, store.e, i)
    {
      hide NodeOk, Lookup, Distinct, Counted, TakenSet, Load;
      NodeRooted(n);
      if i < 12 {
        DirectHome(store.e, i);
        DirectMap(n, i);
        return n.ptrs[i];
      }
      var index := i - 12;
      for level := 1 to 4
        invariant First(store.e, 11 + level) <= i && index == i - First(store.e, 11 + level)
      {
        var span := Span(store.e, level);
        assert First(store.e, 12 + level) == First(store.e, 11 + level) + span;
        if index < span {
          HomeOfLevel(store.e, i, level);
          OwnedTree(store.disk, n.ptrs, store.e, store.Used(), 11 + level);
          b := store.BlockFromIndirect(n.ptrs[11 + level], level, index);
          return;
        }
        index := index - span;
      }
      return 0;
    }

    lemma NodeRooted(n: FileNode)
      requires Ok(n)
      ensures Rooted(store.disk, n.ptrs, store.e, store.Used()) && store.e > 0 && |n.ptrs| == 15
      ensures CacheOk(store.disk, n) && n.sectors == SectorsPerBlock(store.e) * |Owned(store.disk, n.ptrs)|
    {
    }

    lemma DirectMap(n: FileNode, i: nat)
      requires |n.ptrs| == 15 && i < 12 && store.e > 0
      ensures MapBlock(store.disk, n.ptrs, store.e, i) == n.ptrs[i]
    {
      DirectHome(store.e, i);
    }

    lemma TablePointer(n: FileNode)
      requires Ok(n) && n.ptrs[12] != 0
      ensures n.ptrs[12] in store.Used() && n.ptrs[12] < |store.disk|
      ensures |Table(Read(store.disk, n.ptrs[12]))| == store.e
    {
      hide Distinct;
      OwnedTree(store.disk, n.ptrs, store.e, store.Used(), 12);
      LoadOne(store.disk, n.ptrs[12]);
      TableOwnsRoot(n.ptrs[12], Table(Read(store.disk, n.ptrs[12])));
    }

    /** The same lookup through the cached copy of the first indirect table. */
    method BlockFromNode(n: FileNode, i: nat) returns (b: nat, n': FileNode)
      requires Ok(n)
      ensures b == MapBlock(store.disk, n.ptrs, store.e, i)
      ensures Ok(n') && n' == n.(cached := n'.cached)
    {
      hide NodeOk, Lookup, Distinct, Counted, TakenSet, Load, MapBlock;
      NodeRooted(n);
      n' := n;
      if i < 12 {
        DirectMap(n, i);
        return n.ptrs[i], n;
      }
      var index := i - 12;
      if index >= store.e {
        b := BlockForIndex(n, i);
        return;
      }
      if n.ptrs[12] != 0 {
        TablePointer(n);
      }
      MapThroughTable(store.disk, n.ptrs, store.e, index);
      if n.ptrs[12] == 0 {
        return 0, n;
      }
      if n.cached.CachedTable? && n.cached.block == n.ptrs[12] {
        return n.cached.table[index], n;
      }
      var table := store.ReadTable(n.ptrs[12]);
      n' := n.(cached := CachedTable(n.ptrs[12], table));
      CacheFilled(n, n');
      return table[index], n';
    }

    lemma CacheFilled(n: FileNode, n': FileNode)
      requires Ok(n) && n.ptrs[12] != 0
      requires n' == n.(cached := CachedTable(n.ptrs[12], Table(Read(store.disk, n.ptrs[12]))))
      ensures Ok(n')
    {
      hide Rooted, Distinct, Owned;
    }

    /** Every block number the allocator manages is in use. */
    ghost predicate Full()
      requires store.Valid()
      reads store, store.items
    {
      AllBelowTaken(store.items.layout, store.Used(), store.items.layout.total + store.items.layout.bias)
    }

    /** Takes a free block and zero-fills it. */
    method AllocZeroed() returns (ok: bool, b: word)
      requires store.Valid()
      modifies store`disk, store.items
      ensures store.Valid()
      ensures ok ==> 0 < b < |old(store.disk)| && b !in old(store.Used()) && store.Used() == old(store.Used()) + {b}
      ensures ok ==> store.disk == old(store.disk)[b := Zeros(4 * store.e)]
      ensures !ok ==> store.disk == old(store.disk) && store.Used() == old(store.Used()) && Full()
      ensures (ok <==> old(store.Room()) > 0) && store.Room() == old(store.Room()) - if ok then 1 else 0
    {
      hide Counted, TakenSet, AllBelowTaken;
      var v;
      ok, v := store.items.Alloc();
      if !ok {
        return false, 0;
      }
      KnownOnDisk(v);
      b := v;
      store.WriteBlock(b, Zeros(4 * store.e));
    }

    lemma KnownOnDisk(v: nat)
      requires store.Valid() && Known(store.items.layout, v)
      ensures v < |store.disk| <= 0x1_0000_0000
    {
    }

    /** The volume went from the given state to the present one by growing one file. */
    ghost predicate GrewFrom(d: Disk, used: set<nat>, n: FileNode, n': FileNode)
      requires store.Valid()
      reads store, store.items
    {
      Grew(d, n, used, store.disk, n', store.Used(), store.e)
    }

    /**
     * Makes sure file block `i` is mapped, allocating it and, past the direct pointers, the
     * table that names it.  Blocks beyond one level of tables are refused.
     */
    method EnsureBlock(n: FileNode, i: nat) returns (ok: bool, b: nat, n': FileNode)
      requires Ok(n)
      modifies store`disk, store.items
      ensures store.Valid() && Ok(n')
      ensures GrewFrom(old(store.disk), old(store.Used()), n, n')
      ensures ok ==> b != 0 && MapBlock(store.disk, n'.ptrs, store.e, i) == b && i < 12 + store.e
      ensures !ok ==> i >= 12 + store.e || Full()
      ensures |n.ptrs| == 15 && |n'.ptrs| == 15 && store.e > 0
      ensures ok <==> i < 12 + store.e && BlockNeed(old(store.disk), n.ptrs, store.e, i) <= old(store.Room())
      ensures ok ==> store.Room() == old(store.Room()) - BlockNeed(old(store.disk), n.ptrs, store.e, i)
      ensures i < 12 + store.e ==> MapsTo(old(store.disk), n.ptrs, store.disk, n'.ptrs, store.e, i, ok, b)
      ensures i >= 12 + store.e ==> n' == n && store.disk == old(store.disk)
      ensures if i < 12 then n'.ptrs[12] == n.ptrs[12] else ok ==> n'.ptrs[12] != 0
    {
      hide NodeOk, Counted, TakenSet, Load, MapBlock, Grew, SlotGrown, SameBytes, AllBelowTaken;
      NodeRooted(n);
      GrewNothing(store.disk, n, store.Used(), store.e);
      b, n' := 0, n;
      if i < 12 {
        ok, b, n' := EnsureDirect(n, i);
        return;
      }
      var index := i - 12;
      if index >= store.e {
        return false, 0, n;
      }
      if n.ptrs[12] == 0 {
        ok, b, n' := EnsureBoth(n, index);
      } else {
        ok, b, n' := EnsureEntry(n, index);
      }
    }

    /** The first indirect table and an entry of it. */
    method EnsureBoth(n: FileNode, index: nat) returns (ok: bool, b: nat, n': FileNode)
      requires Ok(n) && n.ptrs[12] == 0 && index < store.e
      modifies store`disk, store.items
      ensures store.Valid() && Ok(n')
      ensures GrewFrom(old(store.disk), old(store.Used()), n, n')
      ensures ok ==> b != 0 && MapBlock(store.disk, n'.ptrs, store.e, 12 + index) == b
      ensures !ok ==> Full()
      ensures |n.ptrs| == 15 && |n'.ptrs| == 15 && store.e > 0 && MapBlock(old(store.disk), n.ptrs, store.e, 12 + index) == 0
      ensures (ok <==> old(store.Room()) >= 2) && (ok ==> store.Room() == old(store.Room()) - 2 && n'.ptrs[12] != 0)
      ensures MapsTo(old(store.disk), n.ptrs, store.disk, n'.ptrs, store.e, 12 + index, ok, b)
    {
      hide NodeOk, Counted, TakenSet, Load, MapBlock, Grew, SlotGrown, SameBytes, AllBelowTaken, MapsTo;
      NodeRooted(n);
      MapThroughTable(store.disk, n.ptrs, store.e, index);
      ghost var d0, u0 := store.disk, store.Used();
      b := 0;
      ok, n' := EnsureTable(n);
      if !ok {
        NothingMapped(store.disk, n.ptrs, store.e, 12 + index);
        return;
      }
      ghost var d1, u1, n1 := store.disk, store.Used(), n';
      NodeRooted(n1);
      ok, b, n' := EnsureEntry(n', index);
      MapsAfter(d0, n.ptrs, d1, n1.ptrs, store.disk, n'.ptrs, store.e, 12 + index, ok, b);
      GrewChain(d0, n, u0, d1, n1, u1, store.disk, n', store.Used(), store.e);
    }

    /** A direct pointer: allocates the block if the pointer is empty. */
    method EnsureDirect(n: FileNode, i: nat) returns (ok: bool, b: nat, n': FileNode)
      requires Ok(n) && i < 12
      modifies store`disk, store.items
      ensures store.Valid() && Ok(n')
      ensures GrewFrom(old(store.disk), old(store.Used()), n, n')
      ensures ok ==> b != 0 && MapBlock(store.disk, n'.ptrs, store.e, i) == b
      ensures !ok ==> Full() && n' == n && store.disk == old(store.disk) && store.Used() == old(store.Used())
      ensures |n.ptrs| == 15 && |n'.ptrs| == 15 && store.e > 0 && n'.ptrs[12] == n.ptrs[12]
      ensures ok <==> BlockNeed(old(store.disk), n.ptrs, store.e, i) <= old(store.Room())
      ensures ok ==> store.Room() == old(store.Room()) - BlockNeed(old(store.disk), n.ptrs, store.e, i)
      ensures MapsTo(old(store.disk), n.ptrs, store.disk, n'.ptrs, store.e, i, ok, b)
    {
      hide NodeOk, Counted, TakenSet, Load, MapBlock, Grew, SlotGrown, SameBytes, AllBelowTaken, MapsTo;
      NodeRooted(n);
      GrewNothing(store.disk, n, store.Used(), store.e);
      NothingMapped(store.disk, n.ptrs, store.e, i);
      DirectMap(n, i);
      if n.ptrs[i] != 0 {
        return true, n.ptrs[i], n;
      }
      ghost var d, u := store.disk, store.Used();
      var v;
      ok, v := AllocZeroed();
      if !ok {
        return false, 0, n;
      }
      n' := n.(ptrs := n.ptrs[i := v], sectors := n.sectors + SectorsPerBlock(store.e));
      AddDirect(d, n.ptrs, store.e, u, i, v, store.disk);
      CacheStays(d, n, u, v, store.disk, n');
      GrewSlot(d, n, store.e, u, i, store.disk, n', v);
      GrewOk(d, n, u, n');
      DirectMap(n', i);
      MapsNow(d, n.ptrs, store.disk, n'.ptrs, store.e, i, v);
      b := v;
    }

    lemma CacheStays(d: Disk, n: FileNode, used: set<nat>, v: nat, d': Disk, n': FileNode)
      requires NodeOk(d, n, store.e, used) && v !in used && v < |d| && d' == d[v := Zeros(4 * store.e)]
      requires n'.cached == n.cached && |n'.ptrs| == 15 && n'.ptrs[12] == n.ptrs[12]
      ensures CacheOk(d', n')
    {
      hide Distinct;
      if n.ptrs[12] != 0 {
        OwnedTree(d, n.ptrs, store.e, used, 12);
        LoadOne(d, n.ptrs[12]);
        TableOwnsRoot(n.ptrs[12], Table(Read(d, n.ptrs[12])));
      }
    }

    lemma GrewOk(d: Disk, n: FileNode, used: set<nat>, n': FileNode)
      requires store.Valid() && GrewFrom(d, used, n, n')
      ensures Ok(n')
    {
    }

    /** The first indirect table: allocated empty. */
    method EnsureTable(n: FileNode) returns (ok: bool, n': FileNode)
      requires Ok(n) && n.ptrs[12] == 0
      modifies store`disk, store.items
      ensures store.Valid() && Ok(n')
      ensures GrewFrom(old(store.disk), old(store.Used()), n, n')
      ensures ok ==> n'.ptrs[12] != 0
      ensures !ok ==> Full() && n' == n && store.disk == old(store.disk)
      ensures (ok <==> old(store.Room()) > 0) && store.Room() == old(store.Room()) - if ok then 1 else 0
      ensures |n.ptrs| == 15 && |n'.ptrs| == 15 && store.e > 0
      ensures forall j: nat :: MapBlock(store.disk, n'.ptrs, store.e, j) == MapBlock(old(store.disk), n.ptrs, store.e, j)
    {
      hide NodeOk, Counted, TakenSet, Load, MapBlock, Grew, SlotGrown, SameBytes, AllBelowTaken;
      NodeRooted(n);
      GrewNothing(store.disk, n, store.Used(), store.e);
      ghost var d, u := store.disk, store.Used();
      var v;
      ok, v := AllocZeroed();
      if !ok {
        return false, n;
      }
      n' := n.(ptrs := n.ptrs[12 := v], sectors := n.sectors + SectorsPerBlock(store.e));
      AddTable(d, n.ptrs, store.e, u, v, store.disk);
      GrewSlot(d, n, store.e, u, 12, store.disk, n', v);
      GrewOk(d, n, u, n');
    }

    /** An entry of the first indirect table. */
    method EnsureEntry(n: FileNode, index: nat) returns (ok: bool, b: nat, n': FileNode)
      requires Ok(n) && n.ptrs[12] != 0 && index < store.e
      modifies store`disk, store.items
      ensures store.Valid() && Ok(n')
      ensures GrewFrom(old(store.disk), old(store.Used()), n, n')
      ensures ok ==> b != 0 && MapBlock(store.disk, n'.ptrs, store.e, 12 + index) == b
      ensures !ok ==> Full()
      ensures |n.ptrs| == 15 && n'.ptrs == n.ptrs && store.e > 0
      ensures ok <==> BlockNeed(old(store.disk), n.ptrs, store.e, 12 + index) <= old(store.Room())
      ensures ok ==> store.Room() == old(store.Room()) - BlockNeed(old(store.disk), n.ptrs, store.e, 12 + index)
      ensures MapsTo(old(store.disk), n.ptrs, store.disk, n'.ptrs, store.e, 12 + index, ok, b)
    {
      hide NodeOk, Counted, TakenSet, Load, MapBlock, Grew, SlotGrown, SameBytes, AllBelowTaken, Distinct, Owned, MapsTo;
      NodeRooted(n);
      NothingMapped(store.disk, n.ptrs, store.e, 12 + index);
      GrewNothing(store.disk, n, store.Used(), store.e);
      TablePointer(n);
      MapThroughTable(store.disk, n.ptrs, store.e, index);
      var table := store.ReadTable(n.ptrs[12]);
      if table[index] != 0 {
        return true, table[index], n;
      }
      ghost var d, u := store.disk, store.Used();
      var v;
      ok, v := AllocZeroed();
      if !ok {
        return false, 0, n;
      }
      store.WriteBlock(n.ptrs[12], Pack(table[index := v]));
      n' := n.(sectors := n.sectors + SectorsPerBlock(store.e), cached := NoTable);
      AddEntry(d, n.ptrs, store.e, u, index, v, store.disk);
      GrewSlot(d, n, store.e, u, 12, store.disk, n', v);
      GrewOk(d, n, u, n');
      MappedAt(d, n.ptrs, store.disk, n.ptrs, store.e, 12 + index, v);
      MapsNow(d, n.ptrs, store.disk, n'.ptrs, store.e, 12 + index, v);
      b := v;
    }

    lemma MappedAt(d: Disk, ptrs: seq<word>, d': Disk, ptrs': seq<word>, e: nat, i: nat, b: nat)
      requires |ptrs| == 15 && |ptrs'| == 15 && e > 0 && Mapped(d, ptrs, d', ptrs', e, i, b)
      ensures MapBlock(d', ptrs', e, i) == b
    {
    }

    // ----- cutting

    /** The walk over the inode's pointers that cuts the file to `keep` blocks has passed pointer `i`. */
    ghost predicate Cutting(d: Disk, used: set<nat>, n: FileNode, keep: nat, ptrs: seq<word>, i: nat, total: nat)
      requires store.Valid() && |n.ptrs| == 15 && i <= 15
      reads store, store.items
    {
      Walked(Whole(d, n.ptrs), CutForest(d, n.ptrs, store.e, keep), Levels(), d, store.disk, ptrs, i, used, store.Used(), total)
    }

    /** The next pointer is as it was and owns its blocks. */
    lemma CutNext(d: Disk, used: set<nat>, n: FileNode, keep: nat, ptrs: seq<word>, i: nat, total: nat)
      requires store.Valid() && NodeOk(d, n, store.e, used) && i < 15 && Cutting(d, used, n, keep, ptrs, i, total)
      ensures |ptrs| == 15 && Load(store.disk, ptrs[i], Level(i)) == Load(d, n.ptrs[i], Level(i))
      ensures Owns(Load(d, n.ptrs[i], Level(i)), store.Used())
    {
      hide Load, Prune, Walked, Below, Distinct;
      var w, p := Whole(d, n.ptrs), CutForest(d, n.ptrs, store.e, keep);
      CutBelow(d, n.ptrs, store.e, keep);
      WholeOwns(d, n.ptrs, store.e, used);
      NextEntryOfForest(w, p, Levels(), d, store.disk, ptrs, i, used, store.Used(), total);
    }

    lemma CutStep(d: Disk, used: set<nat>, n: FileNode, keep: nat, ptrs: seq<word>, i: nat, total: nat, d1: Disk, u1: set<nat>, c: word, f: nat)
      requires store.Valid() && NodeOk(d, n, store.e, used) && i < 15 && |ptrs| == 15
      requires Walked(Whole(d, n.ptrs), CutForest(d, n.ptrs, store.e, keep), Levels(), d, d1, ptrs, i, used, u1, total)
      requires var t := Load(d, n.ptrs[i], Level(i));
        EntryDone(t, Prune(t, store.e, Level(i), First(store.e, i), keep), Level(i), d1, store.disk, c, u1, store.Used(), f)
      ensures Cutting(d, used, n, keep, ptrs[i := c], i + 1, total + f)
    {
      hide Load, Prune, Walked, Below, Distinct, EntryDone;
      CutBelow(d, n.ptrs, store.e, keep);
      WalkStep(Whole(d, n.ptrs), CutForest(d, n.ptrs, store.e, keep), Levels(), d, d1, ptrs, i, used, u1, total, store.disk, c, store.Used(), f);
    }

    /** Frees the direct blocks from `keep` on. */
    method CutDirect(n: FileNode, keep: nat) returns (ptrs: seq<word>, sectors: nat, ghost total: nat)
      requires Ok(n)
      modifies store.items
      ensures store.Valid() && |ptrs| == 15
      ensures Cutting(old(store.disk), old(store.Used()), n, keep, ptrs, 12, total)
      ensures sectors == n.sectors - SectorsPerBlock(store.e) * total
    {
      hide NodeOk, Counted, TakenSet, Load, Walked, Prune, EntryDone, Owns, Blocks;
      NodeRooted(n);
      ghost var d, u := store.disk, store.Used();
      ptrs, sectors, total := n.ptrs, n.sectors, 0;
      var i := if keep < 12 then keep else 12;
      WalkSkip(d, n.ptrs, store.e, u, keep, i);
      while i < 12
        invariant keep <= i <= 12 || i == 12
        invariant store.Valid() && store.disk == d && |ptrs| == 15
        invariant Cutting(d, u, n, keep, ptrs, i, total)
        invariant sectors == n.sectors - SectorsPerBlock(store.e) * total
      {
        CutNext(d, u, n, keep, ptrs, i, total);
        DirectHome(store.e, i);
        ghost var t, u1 := Load(d, n.ptrs[i], 0), store.Used();
        PruneOutside(t, store.e, 0, i, keep);
        DirectLeaf(d, ptrs[i]);
        if ptrs[i] == 0 {
          NothingDone(t, 0, d, ptrs[i], u1);
          CutStep(d, u, n, keep, ptrs, i, total, d, u1, 0, 0);
          assert ptrs[i := 0] == ptrs;
        } else {
          OwnsLeaf(t, u1);
          store.FreeBlock(ptrs[i]);
          AllDone(t, 0, d, u1, store.Used(), 1);
          CutStep(d, u, n, keep, ptrs, i, total, d, u1, 0, 1);
          ptrs := ptrs[i := 0];
          CutSectors(d, u, n, keep, ptrs, i + 1, total + 1);
          sectors := sectors - SectorsPerBlock(store.e);
          total := total + 1;
        }
        i := i + 1;
      }
    }

    /** The blocks given up never outnumber those the sector count stands for. */
    lemma CutSectors(d: Disk, used: set<nat>, n: FileNode, keep: nat, ptrs: seq<word>, i: nat, total: nat)
      requires store.Valid() && NodeOk(d, n, store.e, used) && i <= 15 && Cutting(d, used, n, keep, ptrs, i, total)
      ensures SectorsPerBlock(store.e) * total <= n.sectors
    {
      hide Load, Prune, Distinct, Walked, Rooted;
      WalkedCount(Whole(d, n.ptrs), CutForest(d, n.ptrs, store.e, keep), Levels(), d, store.disk, ptrs, i, used, store.Used(), total);
      MulMonotone(total, |Owned(d, n.ptrs)|, SectorsPerBlock(store.e));
    }

    /** Cuts the tree behind one indirect pointer. */
    method CutTree(ghost d: Disk, ghost u: set<nat>, n: FileNode, keep: nat, ptrs: seq<word>, ghost total: nat, level: nat, base: nat)
      returns (ptrs': seq<word>, f: nat)
      requires store.Valid() && NodeOk(d, n, store.e, u) && 1 <= level <= 3 && base == First(store.e, 11 + level)
      requires |ptrs| == 15 && Cutting(d, u, n, keep, ptrs, 11 + level, total)
      modifies store`disk, store.items
      ensures store.Valid() && |ptrs'| == 15 && Cutting(d, u, n, keep, ptrs', 12 + level, total + f)
    {
      hide NodeOk, Counted, TakenSet, Load, Walked, Prune, EntryDone, Owns, Owned;
      NodeSize(d, n, store.e, u);
      CutNext(d, u, n, keep, ptrs, 11 + level, total);
      ghost var t, d1, u1 := Load(d, n.ptrs[11 + level], level), store.disk, store.Used();
      if ptrs[11 + level] == 0 {
        LoadTable(store.disk, 0, level);
        PruneOutside(t, store.e, level, base, keep);
        NothingDone(t, level, d1, 0, u1);
        CutStep(d, u, n, keep, ptrs, 11 + level, total, d1, u1, 0, 0);
        assert ptrs[11 + level := 0] == ptrs;
        return ptrs, 0;
      }
      var c;
      c, f := store.DropTail(ptrs[11 + level], level, base, keep);
      CutStep(d, u, n, keep, ptrs, 11 + level, total, d1, u1, c, f);
      ptrs' := ptrs[11 + level := c];
    }

    /** Cuts a file down to its first `keep` blocks. */
    method DropFileTail(n: FileNode, keep: nat) returns (n': FileNode)
      requires Ok(n)
      modifies store`disk, store.items
      ensures store.Valid()
      ensures CutTo(old(store.disk), n.ptrs, old(store.Used()), store.disk, n'.ptrs, store.Used(), store.e, keep)
      ensures n' == n.(ptrs := n'.ptrs, sectors := n'.sectors)
      ensures n'.sectors == SectorsPerBlock(store.e) * |Owned(store.disk, n'.ptrs)|
    {
      hide NodeOk, Counted, TakenSet, Load, Walked, Prune, EntryDone, Owns, CutTo, Owned;
      NodeRooted(n);
      ghost var d, u := store.disk, store.Used();
      ghost var total;
      var ptrs, sectors;
      ptrs, sectors, total := CutDirect(n, keep);
      ghost var direct := total;
      var base: nat, freed: nat := 12, 0;
      for level := 1 to 4
        invariant store.Valid() && |ptrs| == 15 && base == First(store.e, 11 + level) && total == direct + freed
        invariant Cutting(d, u, n, keep, ptrs, 11 + level, total)
      {
        var f;
        ptrs, f := CutTree(d, u, n, keep, ptrs, total, level, base);
        freed := freed + f;
        total := total + f;
        base := base + Span(store.e, level);
      }
      CutDone(d, n.ptrs, store.e, u, keep, store.disk, ptrs, store.Used(), total);
      CutSectors(d, u, n, keep, ptrs, 15, total);
      SectorsLeft(store.e, |Owned(d, n.ptrs)|, direct, freed);
      n' := n.(ptrs := ptrs, sectors := SubtractOrZero(sectors, freed * SectorsPerBlock(store.e)));
    }

    // ----- reading and writing

    /** Reads part of a file, block by block: exactly the requested bytes, cut at its end. */
    method ReadData(n: FileNode, offset: nat, len: nat) returns (data: seq<byte>, n': FileNode)
      requires Ok(n)
      ensures Ok(n') && n' == n.(cached := n'.cached)
      ensures |data| == if offset >= n.size then 0 else if len < n.size - offset then len else n.size - offset
      ensures forall k :: 0 <= k < |data| ==> data[k] == RawByte(store.disk, n.ptrs, store.e, offset + k)
    {
      hide NodeOk, Counted, TakenSet, MapBlock, RawByte, BlockOf, OffsetIn, Rooted;
      NodeSize(store.disk, n, store.e, store.Used());
      n' := n;
      if offset >= n.size {
        return [], n;
      }
      var todo := if len > n.size - offset then n.size - offset else len;
      data := [];
      var left, cursor := todo, offset;
      while left > 0
        invariant 0 <= left <= todo && cursor == offset + (todo - left)
        invariant Ok(n') && n' == n.(cached := n'.cached)
        invariant data == Shown(store.disk, n.ptrs, store.e, offset, todo - left)
      {
        var at := OffsetIn(store.e, cursor);
        var space := 4 * store.e - at;
        var chunk := if left < space then left else space;
        var b;
        b, n' := BlockFromNode(n', BlockOf(store.e, cursor));
        ChunkShown(n, cursor, b, chunk);
        var bounce := ReadOrZero(b);
        data := data + bounce[at..at + chunk];
        ShownSum(store.disk, n.ptrs, store.e, offset, todo - left, chunk);
        left := left - chunk;
        cursor := cursor + chunk;
      }
    }

    /** Reads a mapped block, or zeros for a hole. */
    method ReadOrZero(b: nat) returns (block: Block)
      requires store.Valid() && (b == 0 || b < |store.disk|)
      ensures block == if b == 0 then Zeros(4 * store.e) else Read(store.disk, b)
      ensures |block| == 4 * store.e
    {
      hide Counted, TakenSet;
      block := if b == 0 then Zeros(4 * store.e) else store.disk[b];
    }

    lemma ChunkShown(n: FileNode, cursor: nat, b: nat, chunk: nat)
      requires Ok(n) && |n.ptrs| == 15 && store.e > 0
      requires OffsetIn(store.e, cursor) + chunk <= 4 * store.e && b == MapBlock(store.disk, n.ptrs, store.e, BlockOf(store.e, cursor))
      ensures b == 0 || b < |store.disk|
      ensures var block := if b == 0 then Zeros(4 * store.e) else Read(store.disk, b);
        && |block| == 4 * store.e
        && block[OffsetIn(store.e, cursor)..OffsetIn(store.e, cursor) + chunk] == Shown(store.disk, n.ptrs, store.e, cursor, chunk)
    {
      hide Counted, TakenSet, MapBlock, BlockOf, OffsetIn, Distinct, Owned, Whole;
      MapOwned(store.disk, n.ptrs, store.e, store.Used(), BlockOf(store.e, cursor));
      var block := if b == 0 then Zeros(4 * store.e) else Read(store.disk, b);
      var part := block[OffsetIn(store.e, cursor)..OffsetIn(store.e, cursor) + chunk];
      forall k | 0 <= k < chunk
        ensures part[k] == RawByte(store.disk, n.ptrs, store.e, cursor + k)
      {
        ChunkByte(store.e, cursor, k);
      }
    }

    /** The file changed from the given state by a write of the first `done` bytes of `data`. */
    ghost predicate Writing(d: Disk, used: set<nat>, n: FileNode, n': FileNode, offset: nat, data: seq<byte>, done: nat)
      requires |n.ptrs| == 15 && store.e > 0 && done <= |data|
      reads store, store.items
    {
      && Ok(n') && |n'.ptrs| == 15 && n'.size == n.size
      && Keeps(d, used, Owned(d, n.ptrs), store.disk, store.Used(), Owned(store.disk, n'.ptrs))
      && Patched(d, n.ptrs, store.disk, n'.ptrs, store.e, offset, data, done)
    }

    /** Growing the file does not disturb a write in progress. */
    lemma GrowWhileWriting(d: Disk, used: set<nat>, n: FileNode, offset: nat, data: seq<byte>, done: nat,
                           d1: Disk, u1: set<nat>, n1: FileNode, n2: FileNode)
      requires |n.ptrs| == 15 && store.e > 0 && done <= |data| && store.Valid()
      requires |n1.ptrs| == 15 && n1.size == n.size
      requires Keeps(d, used, Owned(d, n.ptrs), d1, u1, Owned(d1, n1.ptrs))
      requires Patched(d, n.ptrs, d1, n1.ptrs, store.e, offset, data, done)
      requires GrewFrom(d1, u1, n1, n2)
      ensures Writing(d, used, n, n2, offset, data, done)
    {
      hide Keeps, RawByte, Owned, Counted, TakenSet;
      NodeSize(store.disk, n2, store.e, store.Used());
      KeepsChain(d, used, Owned(d, n.ptrs), d1, u1, Owned(d1, n1.ptrs), store.disk, store.Used(), Owned(store.disk, n2.ptrs));
    }

    /** Writes one chunk that lies inside one block. */
    method WriteChunk(n: FileNode, offset: nat, data: seq<byte>, done: nat, c: nat, ghost d0: Disk, ghost u0: set<nat>, ghost n0: FileNode)
      returns (ok: bool, n': FileNode)
      requires |n0.ptrs| == 15 && store.e > 0 && 0 < c && done + c <= |data|
      requires Writing(d0, u0, n0, n, offset, data, done)
      requires OffsetIn(store.e, offset + done) + c <= 4 * store.e
      modifies store`disk, store.items
      ensures Writing(d0, u0, n0, n', offset, data, if ok then done + c else done)
      ensures !ok ==> BlockOf(store.e, offset + done) >= 12 + store.e || Full()
      ensures |n.ptrs| == 15
      ensures ok ==> GrewAt(old(store.disk), n.ptrs, old(store.Room()), store.disk, n'.ptrs, store.Room(), store.e, BlockOf(store.e, offset + done))
      ensures !ok ==> var i := BlockOf(store.e, offset + done);
                i >= 12 + store.e || BlockNeed(old(store.disk), n.ptrs, store.e, i) > old(store.Room())
    {
      hide NodeOk, Counted, TakenSet, MapBlock, RawByte, BlockOf, OffsetIn, Patched, Keeps, Owned, Rooted, Full, Grew, BlockNeed, MapsTo;
      ghost var d1, u1, r1 := store.disk, store.Used(), store.Room();
      var i, at := BlockOf(store.e, offset + done), OffsetIn(store.e, offset + done);
      var b;
      ok, b, n' := EnsureBlock(n, i);
      GrowWhileWriting(d0, u0, n0, offset, data, done, d1, u1, n, n');
      if !ok {
        return;
      }
      ChunkShown(n', offset + done, b, 0);
      var bounce;
      if at > 0 || c < 4 * store.e {
        bounce := ReadOrZero(b);
      } else {
        bounce := Zeros(4 * store.e);
      }
      ghost var was := Read(store.disk, b);
      bounce := Splice(bounce, at, data[done..done + c]);
      assert bounce == Splice(was, at, data[done..done + c]);
      ghost var d2 := store.disk;
      NodeRooted(n');
      WriteMapsNothing(d1, n.ptrs, r1, d2, n'.ptrs, store.Room(), store.e, i, store.Used(), bounce);
      store.WriteBlock(b, bounce);
      WroteChunk(d0, u0, n0, offset, data, done, c, d2, n', was, bounce);
    }

    lemma WroteChunk(d0: Disk, u0: set<nat>, n0: FileNode, offset: nat, data: seq<byte>, done: nat, c: nat, d: Disk, n: FileNode, was: Block, block: Block)
      requires |n0.ptrs| == 15 && store.Valid() && store.e > 0 && done + c <= |data| && n.size == n0.size
      requires NodeOk(d, n, store.e, store.Used())
      requires OffsetIn(store.e, offset + done) + c <= 4 * store.e && |was| == 4 * store.e
      requires MapBlock(d, n.ptrs, store.e, BlockOf(store.e, offset + done)) != 0
      requires was == Read(d, MapBlock(d, n.ptrs, store.e, BlockOf(store.e, offset + done)))
      requires block == Splice(was, OffsetIn(store.e, offset + done), data[done..done + c])
      requires MapBlock(d, n.ptrs, store.e, BlockOf(store.e, offset + done)) < |d|
      requires store.disk == d[MapBlock(d, n.ptrs, store.e, BlockOf(store.e, offset + done)) := block]
      requires Keeps(d0, u0, Owned(d0, n0.ptrs), d, store.Used(), Owned(d, n.ptrs))
      requires Patched(d0, n0.ptrs, d, n.ptrs, store.e, offset, data, done)
      ensures Writing(d0, u0, n0, n, offset, data, done + c)
    {
      hide Counted, TakenSet, MapBlock, RawByte, BlockOf, OffsetIn, Patched, Keeps, Owned, Rooted, Read;
      NodeSize(d, n, store.e, store.Used());
      PatchChunk(d0, n0.ptrs, d, n.ptrs, store.e, store.Used(), offset, data, done, c, was, block);
      OverwrittenNode(d, n, store.e, store.Used(), BlockOf(store.e, offset + done), block);
      KeepsChain(d0, u0, Owned(d0, n0.ptrs), d, store.Used(), Owned(d, n.ptrs), store.disk, store.Used(), Owned(store.disk, n.ptrs));
    }

    /**
     * Writes bytes at an offset, block by block; no bytes at all set the size.  It succeeds exactly
     * when there is room.  A write that cannot get a block stops there: the chunks before it are in
     * place, the size is unchanged, and the block is the first one out of reach or without room.
     */
    method WriteData(n: FileNode, offset: nat, data: seq<byte>) returns (ok: bool, n': FileNode, done: nat)
      requires Ok(n) && |n.ptrs| == 15 && store.e > 0
      modifies store`disk, store.items
      ensures done <= |data| && (ok <==> done == |data|)
      ensures ok <==> RoomFor(old(store.disk), n.ptrs, store.e, old(store.Room()), offset, data)
      ensures Ok(n') && |n'.ptrs| == 15
      ensures Keeps(old(store.disk), old(store.Used()), Owned(old(store.disk), n.ptrs), store.disk, store.Used(), Owned(store.disk, n'.ptrs))
      ensures Patched(old(store.disk), n.ptrs, store.disk, n'.ptrs, store.e, offset, data, done)
      ensures n'.size == if data == [] then offset else if ok && offset + |data| > n.size then offset + |data| else n.size
      ensures !ok ==> StopsAt(old(store.disk), n.ptrs, store.e, old(store.Room()), offset, done)
      ensures !ok ==> BlockOf(store.e, offset + done) >= 12 + store.e || Full()
    {
      hide NodeOk, Counted, TakenSet, MapBlock, RawByte, BlockOf, OffsetIn, Patched, Keeps, Owned, Rooted, Full, RangeNeed, MappedUpTo, BlockNeed, GrewAt;
      ghost var d, u, r := store.disk, store.Used(), store.Room();
      n' := n;
      StartWriting(n, offset, data);
      if data == [] {
        n' := n.(size := offset);
        SizeOnly(n', offset);
        return true, n', 0;
      }
      var cursor, left := offset, |data|;
      ghost var first, last := BlockOf(store.e, offset), LastOf(store.e, offset, data);
      ghost var i := first;
      StartMapping(d, n.ptrs, store.e, first);
      BlockOrder(store.e, offset, offset + |data| - 1);
      while left > 0
        invariant 0 <= left <= |data| && cursor == offset + (|data| - left) && first <= i
        invariant Writing(d, u, n, n', offset, data, |data| - left)
        invariant MappedUpTo(d, n.ptrs, store.disk, n'.ptrs, store.e, first, i)
        invariant store.Room() == r - RangeNeed(d, n.ptrs, store.e, first, i)
        invariant if left > 0 then i == BlockOf(store.e, cursor) <= last else i == last + 1 <= 12 + store.e
        invariant left == |data| || left == 0 || OffsetIn(store.e, cursor) == 0
      {
        var at := OffsetIn(store.e, cursor);
        var space := 4 * store.e - at;
        var chunk := if left < space then left else space;
        ghost var d1, n1, r1 := store.disk, n', store.Room();
        TableSize(n1);
        ok, n' := WriteChunk(n', offset, data, |data| - left, chunk, d, u, n);
        if i < 12 + store.e { NeedNext(d, n.ptrs, d1, n1.ptrs, store.e, first, i); }
        if !ok {
          NeedGrows(d, n.ptrs, store.e, first, i + 1, last + 1);
          return false, n', |data| - left;
        }
        MappedMore(d, n.ptrs, d1, n1.ptrs, r1, store.disk, n'.ptrs, store.Room(), store.e, first, i);
        NextChunk(store.e, cursor, left, chunk);
        left := left - chunk;
        cursor := cursor + chunk;
        i := i + 1;
      }
      ok, done := true, |data|;
      if cursor > n'.size {
        n' := n'.(size := cursor);
        SizeOnly(n', cursor);
      }
    }

    lemma TableSize(n: FileNode)
      requires Ok(n) && |n.ptrs| == 15
      ensures n.ptrs[12] != 0 ==> |Table(Read(store.disk, n.ptrs[12]))| == store.e
    {
      hide Distinct;
      if n.ptrs[12] != 0 { TablePointer(n); }
    }

    lemma StartWriting(n: FileNode, offset: nat, data: seq<byte>)
      requires Ok(n) && |n.ptrs| == 15 && store.e > 0
      ensures Writing(store.disk, store.Used(), n, n, offset, data, 0)
    {
      hide RawByte, Distinct, Counted, TakenSet;
    }

    lemma SizeOnly(n: FileNode, size: nat)
      requires exists s: nat :: Ok(n.(size := s))
      ensures Ok(n)
    {
    }

    // ----- truncating

    /** Zeroes the rest of the last kept block. */
    method ZeroFileTail(n: FileNode, len: nat) returns (n': FileNode)
      requires Ok(n) && |n.ptrs| == 15 && store.e > 0
      modifies store`disk
      ensures Ok(n') && n' == n.(cached := n'.cached) && store.Used() == old(store.Used())
      ensures Keeps(old(store.disk), store.Used(), Owned(old(store.disk), n.ptrs), store.disk, store.Used(), Owned(store.disk, n.ptrs))
      ensures TailCleared(old(store.disk), store.disk, n.ptrs, store.e, len)
      ensures Owned(store.disk, n.ptrs) == Owned(old(store.disk), n.ptrs)
    {
      hide NodeOk, Counted, TakenSet, MapBlock, RawByte, BlockOf, OffsetIn, Rooted, Keeps, Owned, Patched;
      n' := n;
      ghost var d := store.disk;
      StartWriting(n, 0, []);
      var at := OffsetIn(store.e, len);
      if at == 0 {
        assert forall x: nat :: !InTail(store.e, len, x);
        return;
      }
      var b;
      b, n' := BlockFromNode(n, BlockOf(store.e, len));
      ChunkShown(n, len, b, 0);
      if b == 0 {
        TailUnmapped(n, len);
        return;
      }
      var bounce := ReadOrZero(b);
      bounce := Splice(bounce, at, Zeros(4 * store.e - at));
      store.WriteBlock(b, bounce);
      TailZeroed(d, n', len, bounce);
    }

    lemma TailUnmapped(n: FileNode, len: nat)
      requires |n.ptrs| == 15 && store.e > 0 && MapBlock(store.disk, n.ptrs, store.e, BlockOf(store.e, len)) == 0
      ensures TailCleared(store.disk, store.disk, n.ptrs, store.e, len)
    {
      hide MapBlock, BlockOf, OffsetIn;
    }

    lemma TailZeroed(d: Disk, n: FileNode, len: nat, block: Block)
      requires store.Valid() && NodeOk(d, n, store.e, store.Used()) && |n.ptrs| == 15 && store.e > 0
      requires MapBlock(d, n.ptrs, store.e, BlockOf(store.e, len)) != 0 && OffsetIn(store.e, len) > 0
      requires var was := Read(d, MapBlock(d, n.ptrs, store.e, BlockOf(store.e, len)));
        |was| == 4 * store.e && block == Splice(was, OffsetIn(store.e, len), Zeros(4 * store.e - OffsetIn(store.e, len)))
      requires MapBlock(d, n.ptrs, store.e, BlockOf(store.e, len)) < |d|
      requires store.disk == d[MapBlock(d, n.ptrs, store.e, BlockOf(store.e, len)) := block]
      ensures Ok(n) && Owned(store.disk, n.ptrs) == Owned(d, n.ptrs)
      ensures Keeps(d, store.Used(), Owned(d, n.ptrs), store.disk, store.Used(), Owned(store.disk, n.ptrs))
      ensures TailCleared(d, store.disk, n.ptrs, store.e, len)
    {
      hide Counted, TakenSet, MapBlock, RawByte, BlockOf, OffsetIn, Keeps, Read, Distinct, Whole;
      var i := BlockOf(store.e, len);
      OverwrittenNode(d, n, store.e, store.Used(), i, block);
      Overwritten(d, n.ptrs, store.e, store.Used(), i, block);
      forall x: nat
        ensures RawByte(store.disk, n.ptrs, store.e, x) == if InTail(store.e, len, x) then 0 else RawByte(d, n.ptrs, store.e, x)
      {
        if BlockOf(store.e, x) == i {
          ShownByte(d, n.ptrs, store.e, store.Used(), x);
        }
      }
    }

    /** Frees every block of a file. */
    method ReleaseBlocks(n: FileNode) returns (n': FileNode)
      requires Ok(n)
      modifies store.items
      ensures store.Valid()
      ensures CutTo(store.disk, n.ptrs, old(store.Used()), store.disk, n'.ptrs, store.Used(), store.e, 0)
      ensures n' == n.(ptrs := n'.ptrs, sectors := 0, size := 0)
      ensures Owned(store.disk, n'.ptrs) == {}
    {
      hide NodeOk, Counted, TakenSet, Load, Walked, Prune, EntryDone, Owns, Blocks, CutTo, Owned, Span;
      NodeRooted(n);
      ghost var d, u := store.disk, store.Used();
      var ptrs := n.ptrs;
      ghost var total: nat := 0;
      WalkSkip(d, n.ptrs, store.e, u, 0, 0);
      for i := 0 to 12
        invariant store.Valid() && store.disk == d && |ptrs| == 15
        invariant Cutting(d, u, n, 0, ptrs, i, total)
        invariant forall k :: 0 <= k < i ==> ptrs[k] == 0
      {
        total := ReleaseSlot(d, u, n, ptrs, i, total);
        ptrs := ptrs[i := 0];
      }
      for level := 1 to 4
        invariant store.Valid() && store.disk == d && |ptrs| == 15
        invariant Cutting(d, u, n, 0, ptrs, 11 + level, total)
        invariant forall k :: 0 <= k < 11 + level ==> ptrs[k] == 0
      {
        total := ReleaseSlot(d, u, n, ptrs, 11 + level, total);
        ptrs := ptrs[11 + level := 0];
      }
      CutDone(d, n.ptrs, store.e, u, 0, store.disk, ptrs, store.Used(), total);
      EmptyPointers(d, ptrs);
      n' := n.(ptrs := ptrs, sectors := 0, size := 0);
    }

    /** Frees what one pointer of the inode names. */
    method ReleaseSlot(ghost d: Disk, ghost u: set<nat>, ghost n: FileNode, ptrs: seq<word>, i: nat, ghost total: nat)
      returns (ghost total': nat)
      requires store.Valid() && store.disk == d && |ptrs| == 15 && i < 15 && NodeOk(d, n, store.e, u)
      requires Cutting(d, u, n, 0, ptrs, i, total)
      modifies store.items
      ensures store.Valid() && Cutting(d, u, n, 0, ptrs[i := 0], i + 1, total')
    {
      hide NodeOk, Counted, TakenSet, Load, Walked, Prune, EntryDone, Owns, Blocks, Span;
      NodeSize(d, n, store.e, u);
      CutNext(d, u, n, 0, ptrs, i, total);
      ghost var t, u1 := Load(d, n.ptrs[i], Level(i)), store.Used();
      var f := store.ReleaseEntry(ptrs[i], Level(i));
      PrunedToNothing(t, store.e, Level(i), First(store.e, i));
      AllDone(t, Level(i), d, u1, store.Used(), f);
      CutStep(d, u, n, 0, ptrs, i, total, d, u1, 0, f);
      total' := total + f;
    }

    /**
     * Sets the size of a file.  Shrinking zeroes the rest of the last block and frees the
     * blocks behind it; growing leaves a hole.
     */
    method Truncate(n: FileNode, len: nat) returns (n': FileNode)
      requires Ok(n) && |n.ptrs| == 15 && store.e > 0
      modifies store`disk, store.items
      ensures Ok(n') && |n'.ptrs| == 15 && n'.size == len
      ensures Keeps(old(store.disk), old(store.Used()), Owned(old(store.disk), n.ptrs), store.disk, store.Used(), Owned(store.disk, n'.ptrs))
      ensures len < n.size ==> CutAt(old(store.disk), n.ptrs, store.disk, n'.ptrs, store.e, len)
      ensures len >= n.size ==> store.disk == old(store.disk) && n'.ptrs == n.ptrs
      ensures len < n.size ==> Owned(store.disk, n'.ptrs) <= Owned(old(store.disk), n.ptrs)
      ensures len < n.size ==> forall i: nat :: BlocksIn(len, 4 * store.e) <= i ==> MapBlock(store.disk, n'.ptrs, store.e, i) == 0
    {
      hide NodeOk, Counted, TakenSet, MapBlock, RawByte, BlockOf, OffsetIn, Rooted, Keeps, Owned, CutTo, BlocksIn;
      n' := n;
      ghost var d, u := store.disk, store.Used();
      StartWriting(n, 0, []);
      if len < n.size {
        n' := ZeroFileTail(n, len);
        ghost var d1, n1 := store.disk, n';
        if len == 0 {
          n' := ReleaseBlocks(n');
          ZeroBlocks(store.e);
        } else {
          n' := DropFileTail(n', BlocksIn(len, 4 * store.e));
        }
        CutDetails(d1, n1.ptrs, u, store.disk, n'.ptrs, store.Used(), store.e, BlocksIn(len, 4 * store.e));
        KeepsChain(d, u, Owned(d, n.ptrs), d1, u, Owned(d1, n1.ptrs), store.disk, store.Used(), Owned(store.disk, n'.ptrs));
        CutBytes(d, n, d1, n', len);
        n' := n'.(cached := NoTable);
        CutNode(n');
      }
      n' := n'.(size := len);
      SizeOnly(n', len);
    }

    lemma CutNode(n: FileNode)
      requires store.Valid() && n.cached == NoTable
      requires Rooted(store.disk, n.ptrs, store.e, store.Used()) && n.sectors == SectorsPerBlock(store.e) * |Owned(store.disk, n.ptrs)|
      ensures Ok(n)
    {
    }

    /** Zeroed tail and unmapped blocks together: every byte from the new size on is zero. */
    lemma CutBytes(d: Disk, n: FileNode, d1: Disk, n': FileNode, len: nat)
      requires |n.ptrs| == 15 && |n'.ptrs| == 15 && store.e > 0
      requires TailCleared(d, d1, n.ptrs, store.e, len)
      requires CutBehind(d1, n.ptrs, store.disk, n'.ptrs, store.e, BlocksIn(len, 4 * store.e))
      ensures CutAt(d, n.ptrs, store.disk, n'.ptrs, store.e, len)
    {
      hide RawByte, BlockOf, OffsetIn, BlocksIn;
      forall x: nat
        ensures RawByte(store.disk, n'.ptrs, store.e, x) == if x < len then RawByte(d, n.ptrs, store.e, x) else 0
      {
        KeptBytes(store.e, len, x);
      }
    }
  }

  lemma ZeroBlocks(e: nat)
    requires e > 0
    ensures BlocksIn(0, 4 * e) == 0
  {
    hide BlockOf, OffsetIn, BlocksIn;
    BlocksInIs(e, 0);
    DivideOnce(0, 0, 4 * e, 0);
    ZeroPlace(e);
  }

  lemma ZeroPlace(e: nat)
    requires e > 0
    ensures BlockOf(e, 0) == 0 && OffsetIn(e, 0) == 0
  {
    DivideOnce(0, 0, 4 * e, 0);
  }

  lemma CutDetails(d: Disk, ptrs: seq<word>, used: set<nat>, d': Disk, ptrs': seq<word>, used': set<nat>, e: nat, keep: nat)
    requires CutTo(d, ptrs, used, d', ptrs', used', e, keep)
    ensures |ptrs| == 15 && |ptrs'| == 15 && e > 0 && Rooted(d', ptrs', e, used')
    ensures Owned(d', ptrs') <= Owned(d, ptrs)
    ensures Keeps(d, used, Owned(d, ptrs), d', used', Owned(d', ptrs'))
    ensures CutBehind(d, ptrs, d', ptrs', e, keep)
    ensures forall i: nat :: keep <= i ==> MapBlock(d', ptrs', e, i) == 0
  {
    hide RawByte, Keeps, MapBlock, Owned, BlockOf;
  }

  lemma PrunedToNothing(t: Tree, e: nat, level: nat, base: nat)
    requires e > 0
    ensures Prune(t, e, level, base, 0) == Hole
  {
    SpanPositive(e, level);
  }

  lemma EmptyPointers(d: Disk, ptrs: seq<word>)
    requires forall k :: 0 <= k < |ptrs| ==> ptrs[k] == 0
    ensures Owned(d, ptrs) == {}
  {
    HolesOwnNothing(Forest(d, ptrs));
  }

  /** The rest of the block of byte `len` is zeroed; all other bytes are as they were. */
  ghost predicate TailCleared(d: Disk, d': Disk, ptrs: seq<word>, e: nat, len: nat)
    requires |ptrs| == 15 && e > 0
  {
    forall x: nat :: RawByte(d', ptrs, e, x) == if InTail(e, len, x) then 0 else RawByte(d, ptrs, e, x)
  }

  /** The bytes of the first `keep` blocks stay; all later ones read as zero. */
  ghost predicate CutBehind(d: Disk, ptrs: seq<word>, d': Disk, ptrs': seq<word>, e: nat, keep: nat)
    requires |ptrs| == 15 && |ptrs'| == 15 && e > 0
  {
    forall x: nat :: RawByte(d', ptrs', e, x) == if BlockOf(e, x) < keep then RawByte(d, ptrs, e, x) else 0
  }

  /** The bytes below `len` stay; all later ones read as zero. */
  ghost predicate CutAt(d: Disk, ptrs: seq<word>, d': Disk, ptrs': seq<word>, e: nat, len: nat)
    requires |ptrs| == 15 && |ptrs'| == 15 && e > 0
  {
    forall x: nat :: RawByte(d', ptrs', e, x) == if x < len then RawByte(d, ptrs, e, x) else 0
  }

  /** Byte `x` lies in the block of byte `len`, at or behind it. */
  predicate InTail(e: nat, len: nat, x: nat)
    requires e > 0
  {
    OffsetIn(e, len) != 0 && BlockOf(e, x) == BlockOf(e, len) && OffsetIn(e, len) <= OffsetIn(e, x)
  }

  lemma ShownSum(d: Disk, ptrs: seq<word>, e: nat, from: nat, a: nat, b: nat)
    requires |ptrs| == 15 && e > 0
    ensures Shown(d, ptrs, e, from, a) + Shown(d, ptrs, e, from + a, b) == Shown(d, ptrs, e, from, a + b)
  {
    hide RawByte;
    var s := Shown(d, ptrs, e, from, a) + Shown(d, ptrs, e, from + a, b);
    forall k | 0 <= k < a + b
      ensures s[k] == RawByte(d, ptrs, e, from + k)
    {
      if k >= a {
        assert s[k] == Shown(d, ptrs, e, from + a, b)[k - a];
      }
    }
  }

  function SubtractOrZero(a: nat, b: nat): nat {
    if b > a then 0 else a - b
  }

  lemma SectorsLeft(e: nat, owned: nat, direct: nat, freed: nat)
    requires direct + freed <= owned
    ensures var s := SectorsPerBlock(e);
      s * owned - s * direct >= 0 && SubtractOrZero(s * owned - s * direct, freed * s) == s * (owned - direct - freed)
  {
    var s := SectorsPerBlock(e);
    MulMonotone(direct + freed, owned, s);
    assert s * (owned - direct - freed) == s * owned - s * direct - s * freed;
  }

  lemma WalkedCount(t: Tree, p: seq<Tree>, levels: seq<nat>, d0: Disk, d: Disk, table: seq<word>, i: nat,
                    used0: set<nat>, used: set<nat>, freed: nat)
    requires t.Node? && |p| == |t.kids| == |levels| && i <= |p|
    requires Walked(t, p, levels, d0, d, table, i, used0, used, freed)
    ensures freed <= |BlocksOfAll(t.kids)|
  {
    hide Load, Read;
    PrefixWithin(t.kids, i);
    SubsetSize(BlocksOfAll(t.kids), GivenUp(t, p, i));
  }

  lemma DirectLeaf(d: Disk, b: nat)
    ensures Load(d, b, 0) == Leaf(b)
  {
  }

  lemma OwnsLeaf(t: Tree, used: set<nat>)
    requires Owns(t, used) && t.Data?
    ensures t.block in used && Blocks(t) == {t.block}
  {
  }

  lemma WholeOwns(d: Disk, ptrs: seq<word>, e: nat, used: set<nat>)
    requires Rooted(d, ptrs, e, used)
    ensures Owns(Whole(d, ptrs), used + {0})
  {
    hide Distinct;
  }

  /** The next entry of the walk over an inode, whose root block is not on disk. */
  lemma NextEntryOfForest(t: Tree, p: seq<Tree>, levels: seq<nat>, d0: Disk, d: Disk, table: seq<word>, i: nat,
                          used0: set<nat>, used: set<nat>, freed: nat)
    requires Below(t, p) && Distinct(t) && BlocksOfAll(t.kids) <= used0 && i < |p| == |levels|
    requires Walked(t, p, levels, d0, d, table, i, used0, used, freed)
    ensures |table| == |p| && Load(d, table[i], levels[i]) == t.kids[i] && Owns(t.kids[i], used)
  {
    hide GivenUp, Load;
    GivenUpStep(t, p, i);
    BlocksOfKid(t.kids, i);
  }

  // ----- an inode without blocks

  const EMPTY: FileNode := FileNode([0, 0, 0, 0, 0, 0, 0, 0, 0, 0, 0, 0, 0, 0, 0], 0, 0, NoTable)

  lemma EmptyIsFine(d: Disk, e: nat, used: set<nat>)
    requires Geometry(d, e) && forall b :: b in used ==> 0 <= b < |d|
    ensures NodeOk(d, EMPTY, e, used) && Owned(d, EMPTY.ptrs) == {}
    ensures Content(d, EMPTY, e) == [] && ZeroPastEnd(d, EMPTY, e)
  {
    EmptyForest(d);
    forall x: nat
      ensures RawByte(d, EMPTY.ptrs, e, x) == 0
    {
      EmptyByte(d, e, x);
    }
    hide RawByte, Forest;
  }

  lemma EmptyForest(d: Disk)
    ensures Distinct(Whole(d, EMPTY.ptrs)) && Owned(d, EMPTY.ptrs) == {}
  {
    HolesOwnNothing(Forest(d, EMPTY.ptrs));
  }

  lemma EmptyByte(d: Disk, e: nat, x: nat)
    requires e > 0
    ensures RawByte(d, EMPTY.ptrs, e, x) == 0
  {
    hide BlockOf, OffsetIn, Home, First;
    var i := BlockOf(e, x);
    var k := Home(e, i);
    if k < 15 {
      HomeSpan(e, i);
      assert Load(d, EMPTY.ptrs[k], Level(k)) == Hole;
    }
  }
}
