/** Steps that grow, overwrite and cut one file, and what they leave alone. */
module FileSteps {
  import opened Bytes
  import opened Sets
  import opened BlockTree
  import opened TreeSteps
  import opened BlockStore
  import opened FileTree

  /** One file changed from owning `own` to owning `own'`; the blocks of everything else did not. */
  ghost predicate Keeps(d: Disk, used: set<nat>, own: set<nat>, d': Disk, used': set<nat>, own': set<nat>) {
    && own <= used && own' <= used' && used' - own' == used - own
    && |d'| == |d| && forall b :: b in used && b !in own ==> Read(d', b) == Read(d, b)
  }

  lemma KeepsChain(d0: Disk, u0: set<nat>, o0: set<nat>, d1: Disk, u1: set<nat>, o1: set<nat>, d2: Disk, u2: set<nat>, o2: set<nat>)
    requires Keeps(d0, u0, o0, d1, u1, o1) && Keeps(d1, u1, o1, d2, u2, o2)
    ensures Keeps(d0, u0, o0, d2, u2, o2)
  {
    hide Read;
    forall b | b in u0 && b !in o0
      ensures Read(d2, b) == Read(d0, b)
    {
      assert b in u1 - o1;
    }
  }

  function SectorsPerBlock(e: nat): (s: nat)
    ensures 512 * s <= 4 * e < 512 * s + 512
  {
    4 * e / 512
  }

  /** The cached copy of the first indirect table is the table on disk. */
  ghost predicate CacheOk(d: Disk, n: FileNode) {
    |n.ptrs| == 15 && (n.cached.CachedTable? ==>
      n.ptrs[12] != 0 && n.cached.block == n.ptrs[12] && n.cached.table == Table(Read(d, n.ptrs[12])))
  }

  /** A consistent inode: it owns its blocks, its sector count says how many, its cached table is current. */
  ghost predicate NodeOk(d: Disk, n: FileNode, e: nat, used: set<nat>) {
    && Rooted(d, n.ptrs, e, used)
    && n.sectors == SectorsPerBlock(e) * |Owned(d, n.ptrs)|
    && CacheOk(d, n)
  }

  /** The file shows the same byte at every offset. */
  ghost predicate SameBytes(d: Disk, ptrs: seq<word>, d': Disk, ptrs': seq<word>, e: nat)
    requires |ptrs| == 15 && |ptrs'| == 15 && e > 0
  {
    forall x: nat :: RawByte(d', ptrs', e, x) == RawByte(d, ptrs, e, x)
  }

  // ----- giving one pointer a larger tree

  /** Pointer `k` gets a tree with `added` blocks added; nothing else of the file changes. */
  ghost predicate SlotGrown(d: Disk, ptrs: seq<word>, e: nat, used: set<nat>, k: nat, d': Disk, ptrs': seq<word>, added: set<nat>) {
    && Rooted(d, ptrs, e, used) && |ptrs'| == 15 && k < 15
    && (forall j :: 0 <= j < 15 && j != k ==> ptrs'[j] == ptrs[j])
    && Geometry(d', e) && |d'| == |d|
    && added !! used && (forall b :: b in added ==> 0 < b < |d|)
    && Distinct(Load(d', ptrs'[k], Level(k)))
    && Blocks(Load(d', ptrs'[k], Level(k))) == Blocks(Load(d, ptrs[k], Level(k))) + added
    && (forall b :: b in used && b !in Tables(Load(d, ptrs[k], Level(k))) ==> Read(d', b) == Read(d, b))
  }

  lemma OtherSlotSame(d: Disk, ptrs: seq<word>, e: nat, used: set<nat>, k: nat, d': Disk, ptrs': seq<word>, added: set<nat>, j: nat)
    requires SlotGrown(d, ptrs, e, used, k, d', ptrs', added) && j < 15 && j != k
    ensures Load(d', ptrs'[j], Level(j)) == Load(d, ptrs[j], Level(j))
  {
    hide Load, Read, Distinct;
    OwnedTree(d, ptrs, e, used, j);
    OwnedTree(d, ptrs, e, used, k);
    var t := Load(d, ptrs[j], Level(j));
    TablesAreBlocks(t);
    TablesAreBlocks(Load(d, ptrs[k], Level(k)));
    forall b | b in Tables(t)
      ensures Read(d', b) == Read(d, b)
    {
      SlotsApart(d, ptrs, j, k);
    }
    LoadFrame(d, d', ptrs[j], Level(j));
  }

  lemma SlotsApart(d: Disk, ptrs: seq<word>, j: nat, k: nat)
    requires Distinct(Whole(d, ptrs)) && j < |ptrs| && k < |ptrs| && j != k
    ensures Blocks(Load(d, ptrs[j], Level(j))) !! Blocks(Load(d, ptrs[k], Level(k)))
  {
    hide Load;
    var w := Whole(d, ptrs);
    if j < k {
      assert Blocks(w.kids[j]) !! Blocks(w.kids[k]);
    } else {
      assert Blocks(w.kids[k]) !! Blocks(w.kids[j]);
    }
  }

  lemma {:induction false} BlocksOfReplaced(kids: seq<Tree>, kids': seq<Tree>, k: nat, added: set<nat>)
    requires |kids| == |kids'| && k < |kids|
    requires forall j :: 0 <= j < |kids| && j != k ==> kids'[j] == kids[j]
    requires Blocks(kids'[k]) == Blocks(kids[k]) + added
    ensures BlocksOfAll(kids') == BlocksOfAll(kids) + added
  {
    var n := |kids| - 1;
    if k < n {
      BlocksOfReplaced(kids[..n], kids'[..n], k, added);
    } else {
      assert kids'[..n] == kids[..n];
    }
  }

  lemma GrownForest(d: Disk, ptrs: seq<word>, e: nat, used: set<nat>, k: nat, d': Disk, ptrs': seq<word>, added: set<nat>)
    requires SlotGrown(d, ptrs, e, used, k, d', ptrs', added)
    ensures var f, f' := Forest(d, ptrs), Forest(d', ptrs'); forall j :: 0 <= j < 15 && j != k ==> f'[j] == f[j]
    ensures Owned(d', ptrs') == Owned(d, ptrs) + added
  {
    hide Load, Read, Distinct;
    forall j | 0 <= j < 15 && j != k
      ensures Forest(d', ptrs')[j] == Forest(d, ptrs)[j]
    {
      OtherSlotSame(d, ptrs, e, used, k, d', ptrs', added, j);
    }
    BlocksOfReplaced(Forest(d, ptrs), Forest(d', ptrs'), k, added);
  }

  lemma GrownApart(d: Disk, ptrs: seq<word>, e: nat, used: set<nat>, k: nat, d': Disk, ptrs': seq<word>, added: set<nat>, i: nat, j: nat)
    requires SlotGrown(d, ptrs, e, used, k, d', ptrs', added) && i < 15 && j < 15 && i != j
    ensures Blocks(Load(d', ptrs'[i], Level(i))) !! Blocks(Load(d', ptrs'[j], Level(j)))
  {
    hide Load, Read, Distinct;
    GrownForest(d, ptrs, e, used, k, d', ptrs', added);
    SlotsApart(d, ptrs, i, j);
    OwnedTree(d, ptrs, e, used, i);
    OwnedTree(d, ptrs, e, used, j);
    assert i != k ==> Forest(d', ptrs')[i] == Forest(d, ptrs)[i];
    assert j != k ==> Forest(d', ptrs')[j] == Forest(d, ptrs)[j];
  }

  lemma GrownDistinct(d: Disk, ptrs: seq<word>, e: nat, used: set<nat>, k: nat, d': Disk, ptrs': seq<word>, added: set<nat>)
    requires SlotGrown(d, ptrs, e, used, k, d', ptrs', added)
    ensures Distinct(Whole(d', ptrs'))
  {
    hide Load, Read;
    var w := Whole(d', ptrs');
    forall i | 0 <= i < 15
      ensures Distinct(w.kids[i]) && 0 !in Blocks(w.kids[i])
    {
      ZeroNotLoaded(d', ptrs'[i], Level(i));
      if i != k {
        OtherSlotSame(d, ptrs, e, used, k, d', ptrs', added, i);
        OwnedTree(d, ptrs, e, used, i);
      }
    }
    forall i, j | 0 <= i < j < 15
      ensures Blocks(w.kids[i]) !! Blocks(w.kids[j])
    {
      GrownApart(d, ptrs, e, used, k, d', ptrs', added, i, j);
    }
  }

  lemma GrownRooted(d: Disk, ptrs: seq<word>, e: nat, used: set<nat>, k: nat, d': Disk, ptrs': seq<word>, added: set<nat>)
    requires SlotGrown(d, ptrs, e, used, k, d', ptrs', added)
    ensures Rooted(d', ptrs', e, used + added)
    ensures |Owned(d', ptrs')| == |Owned(d, ptrs)| + |added|
  {
    hide Load, Read, Distinct, Owned, Whole;
    GrownForest(d, ptrs, e, used, k, d', ptrs', added);
    GrownDistinct(d, ptrs, e, used, k, d', ptrs', added);
    DisjointSize(Owned(d, ptrs), added);
  }

  lemma GrownKeeps(d: Disk, ptrs: seq<word>, e: nat, used: set<nat>, k: nat, d': Disk, ptrs': seq<word>, added: set<nat>)
    requires SlotGrown(d, ptrs, e, used, k, d', ptrs', added)
    ensures Keeps(d, used, Owned(d, ptrs), d', used + added, Owned(d', ptrs'))
  {
    hide Load, Read, Distinct, Owned, Whole;
    GrownForest(d, ptrs, e, used, k, d', ptrs', added);
    OwnedTree(d, ptrs, e, used, k);
    TablesAreBlocks(Load(d, ptrs[k], Level(k)));
  }

  lemma GrownMapElsewhere(d: Disk, ptrs: seq<word>, e: nat, used: set<nat>, k: nat, d': Disk, ptrs': seq<word>, added: set<nat>, i: nat)
    requires SlotGrown(d, ptrs, e, used, k, d', ptrs', added) && Home(e, i) != k
    ensures MapBlock(d', ptrs', e, i) == MapBlock(d, ptrs, e, i)
  {
    hide Load, Read, Distinct, Lookup;
    if Home(e, i) < 15 {
      OtherSlotSame(d, ptrs, e, used, k, d', ptrs', added, Home(e, i));
    }
  }

  /** Only file block `i` changed, and it now is `b`. */
  ghost predicate Mapped(d: Disk, ptrs: seq<word>, d': Disk, ptrs': seq<word>, e: nat, i: nat, b: nat)
    requires |ptrs| == 15 && |ptrs'| == 15 && e > 0
  {
    forall j: nat :: MapBlock(d', ptrs', e, j) == if j == i then b else MapBlock(d, ptrs, e, j)
  }

  /** How many blocks mapping file block `i` takes: none, the block, or the block and the first table. */
  ghost function BlockNeed(d: Disk, ptrs: seq<word>, e: nat, i: nat): nat
    requires |ptrs| == 15 && e > 0
  {
    if MapBlock(d, ptrs, e, i) != 0 then 0 else if i >= 12 && ptrs[12] == 0 then 2 else 1
  }

  /** How many file blocks from `lo` up to `hi` are not mapped. */
  ghost function Gaps(d: Disk, ptrs: seq<word>, e: nat, lo: nat, hi: nat): nat
    requires |ptrs| == 15 && e > 0
  {
    if lo >= hi then 0 else Gaps(d, ptrs, e, lo, hi - 1) + if MapBlock(d, ptrs, e, hi - 1) == 0 then 1 else 0
  }

  /** How many blocks mapping all file blocks from `lo` up to `hi` takes. */
  ghost function RangeNeed(d: Disk, ptrs: seq<word>, e: nat, lo: nat, hi: nat): nat
    requires |ptrs| == 15 && e > 0
  {
    Gaps(d, ptrs, e, lo, hi) + if lo < hi && hi > 12 && ptrs[12] == 0 then 1 else 0
  }

  /** The last file block a write touches. */
  ghost function LastOf(e: nat, offset: nat, data: seq<byte>): nat
    requires e > 0 && data != []
  {
    BlockOf(e, offset + |data| - 1)
  }

  /** Enough room for a write: its blocks are within reach, and as many are free as it takes to map them. */
  ghost predicate RoomFor(d: Disk, ptrs: seq<word>, e: nat, room: nat, offset: nat, data: seq<byte>)
    requires |ptrs| == 15 && e > 0
  {
    data == [] || (LastOf(e, offset, data) < 12 + e && RangeNeed(d, ptrs, e, BlockOf(e, offset), LastOf(e, offset, data) + 1) <= room)
  }

  /** A write at `offset` stops after `done` bytes: at the start of the first block out of reach or without room. */
  ghost predicate StopsAt(d: Disk, ptrs: seq<word>, e: nat, room: nat, offset: nat, done: nat)
    requires |ptrs| == 15 && e > 0
  {
    var first, i := BlockOf(e, offset), BlockOf(e, offset + done);
    && (done == 0 || OffsetIn(e, offset + done) == 0)
    && RangeNeed(d, ptrs, e, first, i) <= room && (i >= 12 + e || RangeNeed(d, ptrs, e, first, i + 1) > room)
  }

  /** The file blocks from `lo` up to `i` have been mapped, nothing else has. */
  ghost predicate MappedUpTo(d: Disk, ptrs: seq<word>, d': Disk, ptrs': seq<word>, e: nat, lo: nat, i: nat)
    requires |ptrs| == 15 && |ptrs'| == 15 && e > 0
  {
    && (forall j: nat :: i <= j ==> MapBlock(d', ptrs', e, j) == MapBlock(d, ptrs, e, j))
    && (ptrs'[12] == 0 <==> ptrs[12] == 0 && (i <= 12 || i == lo))
  }

  lemma StartMapping(d: Disk, ptrs: seq<word>, e: nat, lo: nat)
    requires |ptrs| == 15 && e > 0
    ensures MappedUpTo(d, ptrs, d, ptrs, e, lo, lo) && RangeNeed(d, ptrs, e, lo, lo) == 0
  {
  }

  /** A chunk ends the write or its block. */
  lemma NextChunk(e: nat, cursor: nat, left: nat, chunk: nat)
    requires e > 0 && 0 < chunk <= left && OffsetIn(e, cursor) + chunk <= 4 * e
    requires chunk == left || OffsetIn(e, cursor) + chunk == 4 * e
    ensures chunk == left ==> BlockOf(e, cursor + left - 1) == BlockOf(e, cursor)
    ensures chunk < left ==> BlockOf(e, cursor + chunk) == BlockOf(e, cursor) + 1 && OffsetIn(e, cursor + chunk) == 0
    ensures chunk < left ==> BlockOf(e, cursor + chunk) <= BlockOf(e, cursor + left - 1)
  {
    if chunk == left {
      ChunkByte(e, cursor, chunk - 1);
    } else {
      var s: nat, q := 4 * e, BlockOf(e, cursor);
      assert cursor == q * s + OffsetIn(e, cursor);
      assert (q + 1) * s == q * s + s;
      DivideOnce(q + 1, 0, s, cursor + chunk);
      BlockOrder(e, cursor + chunk, cursor + left - 1);
    }
  }

  lemma NeedNext(d: Disk, ptrs: seq<word>, d': Disk, ptrs': seq<word>, e: nat, lo: nat, i: nat)
    requires |ptrs| == 15 && |ptrs'| == 15 && e > 0 && lo <= i < 12 + e && MappedUpTo(d, ptrs, d', ptrs', e, lo, i)
    requires ptrs'[12] != 0 ==> |Table(Read(d', ptrs'[12]))| == e
    ensures RangeNeed(d, ptrs, e, lo, i + 1) == RangeNeed(d, ptrs, e, lo, i) + BlockNeed(d', ptrs', e, i)
  {
    if i >= 12 { MapThroughTable(d', ptrs', e, i - 12); }
    hide MapBlock;
  }

  /** More blocks never take less. */
  lemma {:induction false} NeedGrows(d: Disk, ptrs: seq<word>, e: nat, lo: nat, i: nat, hi: nat)
    requires |ptrs| == 15 && e > 0 && i <= hi
    ensures RangeNeed(d, ptrs, e, lo, i) <= RangeNeed(d, ptrs, e, lo, hi)
    decreases hi - i
  {
    hide MapBlock;
    if i < hi { NeedGrows(d, ptrs, e, lo, i, hi - 1); }
  }

  /** Mapping file block `i` in place took what it needs of the `room` there was. */
  ghost predicate GrewAt(d: Disk, ptrs: seq<word>, room: int, d': Disk, ptrs': seq<word>, room': int, e: nat, i: nat) {
    && |ptrs| == 15 && |ptrs'| == 15 && 0 < e && i < 12 + e && BlockNeed(d, ptrs, e, i) <= room
    && room' == room - BlockNeed(d, ptrs, e, i)
    && MapsTo(d, ptrs, d', ptrs', e, i, true, MapBlock(d', ptrs', e, i))
    && (if i < 12 then ptrs'[12] == ptrs[12] else ptrs'[12] != 0)
  }

  lemma MappedMore(d0: Disk, ptrs0: seq<word>, d: Disk, ptrs: seq<word>, room: int, d': Disk, ptrs': seq<word>, room': int,
                   e: nat, lo: nat, i: nat)
    requires |ptrs0| == 15 && |ptrs| == 15 && e > 0 && lo <= i && MappedUpTo(d0, ptrs0, d, ptrs, e, lo, i)
    requires GrewAt(d, ptrs, room, d', ptrs', room', e, i)
    ensures MappedUpTo(d0, ptrs0, d', ptrs', e, lo, i + 1) && i < 12 + e && room' == room - BlockNeed(d, ptrs, e, i)
  {
    hide MapBlock, BlockNeed;
  }

  /** Writing to a mapped block maps nothing. */
  lemma WriteMapsNothing(d: Disk, ptrs: seq<word>, room: int, d': Disk, ptrs': seq<word>, room': int, e: nat, i: nat, used: set<nat>, data: Block)
    requires GrewAt(d, ptrs, room, d', ptrs', room', e, i) && Rooted(d', ptrs', e, used) && |data| == 4 * e
    requires MapBlock(d', ptrs', e, i) != 0 && MapBlock(d', ptrs', e, i) < |d'|
    ensures GrewAt(d, ptrs, room, d'[MapBlock(d', ptrs', e, i) := data], ptrs', room', e, i)
  {
    var d2 := d'[MapBlock(d', ptrs', e, i) := data];
    Overwritten(d', ptrs', e, used, i, data);
    hide Forest, BlockNeed, RawByte, Rooted;
    forall j: nat
      ensures MapBlock(d2, ptrs', e, j) == MapBlock(d', ptrs', e, j)
    {
      MapFrame(d', d2, ptrs', e, j);
    }
    hide MapBlock;
  }

  /** File block `i` is mapped to `b` if `ok`, and otherwise as it was; no other block moves. */
  ghost predicate MapsTo(d: Disk, ptrs: seq<word>, d': Disk, ptrs': seq<word>, e: nat, i: nat, ok: bool, b: nat)
    requires |ptrs| == 15 && |ptrs'| == 15 && e > 0
  {
    && (MapBlock(d, ptrs, e, i) != 0 ==> ok && b == MapBlock(d, ptrs, e, i))
    && Mapped(d, ptrs, d', ptrs', e, i, if ok then b else 0)
  }

  lemma NothingMapped(d: Disk, ptrs: seq<word>, e: nat, i: nat)
    requires |ptrs| == 15 && e > 0
    ensures var b := MapBlock(d, ptrs, e, i);
            MapsTo(d, ptrs, d, ptrs, e, i, b != 0, b) && (b == 0 ==> forall c: nat :: MapsTo(d, ptrs, d, ptrs, e, i, false, c))
  {
    hide MapBlock;
  }

  lemma MapsNow(d: Disk, ptrs: seq<word>, d': Disk, ptrs': seq<word>, e: nat, i: nat, b: nat)
    requires |ptrs| == 15 && |ptrs'| == 15 && e > 0 && MapBlock(d, ptrs, e, i) == 0 && Mapped(d, ptrs, d', ptrs', e, i, b)
    ensures MapsTo(d, ptrs, d', ptrs', e, i, true, b)
  {
    hide MapBlock;
  }

  lemma MapsAfter(d: Disk, ptrs: seq<word>, d1: Disk, ptrs1: seq<word>, d2: Disk, ptrs2: seq<word>, e: nat, i: nat, ok: bool, b: nat)
    requires |ptrs| == 15 && |ptrs1| == 15 && |ptrs2| == 15 && e > 0 && MapsTo(d1, ptrs1, d2, ptrs2, e, i, ok, b)
    requires forall j: nat :: MapBlock(d1, ptrs1, e, j) == MapBlock(d, ptrs, e, j)
    ensures MapsTo(d, ptrs, d2, ptrs2, e, i, ok, b)
  {
    hide MapBlock;
  }

  /** A block mapped by the growth is zero-filled, so the file shows the same bytes. */
  lemma GrownBytes(d: Disk, ptrs: seq<word>, e: nat, used: set<nat>, k: nat, d': Disk, ptrs': seq<word>, added: set<nat>, i: nat, b: nat)
    requires SlotGrown(d, ptrs, e, used, k, d', ptrs', added)
    requires Mapped(d, ptrs, d', ptrs', e, i, b)
    requires b == MapBlock(d, ptrs, e, i) || (MapBlock(d, ptrs, e, i) == 0 && Read(d', b) == Zeros(4 * e))
    ensures SameBytes(d, ptrs, d', ptrs', e)
  {
    hide Load, Read, Distinct, MapBlock, Lookup, BlockOf, OffsetIn;
    forall x: nat
      ensures RawByte(d', ptrs', e, x) == RawByte(d, ptrs, e, x)
    {
      var j := BlockOf(e, x);
      MapOwned(d, ptrs, e, used, j);
      OwnedTree(d, ptrs, e, used, k);
      assert MapBlock(d', ptrs', e, j) == if j == i then b else MapBlock(d, ptrs, e, j);
    }
  }

  // ----- one-level tables

  function Leaf(b: nat): Tree {
    if b == 0 then Hole else Data(b)
  }

  ghost function Leaves(table: seq<word>): (kids: seq<Tree>)
    ensures |kids| == |table| && forall k :: 0 <= k < |table| ==> kids[k] == Leaf(table[k])
  {
    seq(|table|, k requires 0 <= k < |table| => Leaf(table[k]))
  }

  lemma LoadOne(d: Disk, b: nat)
    requires b != 0
    ensures Load(d, b, 1) == Node(b, Leaves(Table(Read(d, b))))
  {
    assert Load(d, b, 1).kids == Leaves(Table(Read(d, b)));
  }

  lemma LookupOne(b: nat, table: seq<word>, e: nat, j: nat)
    requires e > 0 && |table| == e && j < e
    ensures Lookup(Node(b, Leaves(table)), e, 1, j) == table[j]
  {
    assert Span(e, 1) == e && Span(e, 0) == 1;
    assert Lookup(Leaf(table[j]), e, 0, 0) == table[j];
  }

  lemma FillEntry(ind: nat, table: seq<word>, idx: nat, b: word)
    requires idx < |table| && table[idx] == 0 && b != 0 && b !in Blocks(Node(ind, Leaves(table)))
    requires Distinct(Node(ind, Leaves(table)))
    ensures var t := Node(ind, Leaves(table[idx := b]));
            Distinct(t) && Blocks(t) == Blocks(Node(ind, Leaves(table))) + {b}
  {
    var old_, new_ := Leaves(table), Leaves(table[idx := b]);
    BlocksOfReplaced(old_, new_, idx, {b});
    forall k | 0 <= k < |table|
      ensures Blocks(new_[k]) == if k == idx then {b} else Blocks(old_[k])
      ensures k != idx ==> b !in Blocks(old_[k])
    {
      BlocksOfKid(old_, k);
    }
  }

  lemma EmptyTable(ind: nat, n: nat)
    requires ind != 0
    ensures var t := Node(ind, Leaves(seq(n, _ => 0))); Distinct(t) && Blocks(t) == {ind} && Tables(t) == {ind}
  {
    var kids := Leaves(seq(n, _ => 0));
    HolesOwnNothing(kids);
  }

  // ----- the three ways a file gains a block

  lemma WriteFrame(d: Disk, b: nat, data: Block, e: nat)
    requires Geometry(d, e) && b < |d| && |data| == 4 * e
    ensures Geometry(d[b := data], e) && Read(d[b := data], b) == data
    ensures forall c: nat :: Read(d[b := data], c) == if c == b then data else Read(d, c)
  {
  }

  lemma DirectHome(e: nat, i: nat)
    requires i < 12
    ensures Home(e, i) == i && First(e, i) == i && Level(i) == 0
    ensures forall j: nat :: Home(e, j) == i <==> j == i
  {
  }

  lemma AddDirect(d: Disk, ptrs: seq<word>, e: nat, used: set<nat>, i: nat, b: word, d': Disk)
    requires Rooted(d, ptrs, e, used) && i < 12 && ptrs[i] == 0
    requires b !in used && 0 < b < |d| && d' == d[b := Zeros(4 * e)]
    ensures SlotGrown(d, ptrs, e, used, i, d', ptrs[i := b], {b})
    ensures Mapped(d, ptrs, d', ptrs[i := b], e, i, b) && SameBytes(d, ptrs, d', ptrs[i := b], e)
  {
    hide Read;
    var ptrs' := ptrs[i := b];
    WriteFrame(d, b, Zeros(4 * e), e);
    DirectHome(e, i);
    assert Load(d', ptrs'[i], 0) == Data(b) && Load(d, ptrs[i], 0) == Hole;
    assert SlotGrown(d, ptrs, e, used, i, d', ptrs', {b});
    hide Load, SlotGrown;
    forall j: nat
      ensures MapBlock(d', ptrs', e, j) == if j == i then b else MapBlock(d, ptrs, e, j)
    {
      if j != i {
        GrownMapElsewhere(d, ptrs, e, used, i, d', ptrs', {b}, j);
      }
    }
    assert MapBlock(d, ptrs, e, i) == 0;
    assert Read(d', b) == Zeros(4 * e);
    GrownBytes(d, ptrs, e, used, i, d', ptrs', {b}, i, b);
  }

  lemma TableHome(e: nat, i: nat)
    requires e > 0 && 12 <= i
    ensures Home(e, i) == 12 <==> i - 12 < e
    ensures First(e, 12) == 12 && Level(12) == 1 && Span(e, 1) == e
  {
    assert First(e, 13) == First(e, 12) + Span(e, 1);
  }

  lemma MapThroughTable(d: Disk, ptrs: seq<word>, e: nat, j: nat)
    requires |ptrs| == 15 && e > 0 && j < e
    requires ptrs[12] != 0 ==> |Table(Read(d, ptrs[12]))| == e
    ensures MapBlock(d, ptrs, e, 12 + j) == if ptrs[12] == 0 then 0 else Table(Read(d, ptrs[12]))[j]
  {
    TableHome(e, 12 + j);
    if ptrs[12] != 0 {
      LoadOne(d, ptrs[12]);
      LookupOne(ptrs[12], Table(Read(d, ptrs[12])), e, j);
    }
  }

  lemma AddTable(d: Disk, ptrs: seq<word>, e: nat, used: set<nat>, ind: word, d': Disk)
    requires Rooted(d, ptrs, e, used) && ptrs[12] == 0
    requires ind !in used && 0 < ind < |d| && d' == d[ind := Zeros(4 * e)]
    ensures SlotGrown(d, ptrs, e, used, 12, d', ptrs[12 := ind], {ind})
    ensures Table(Read(d', ind)) == seq(e, _ => 0)
    ensures forall j: nat :: MapBlock(d', ptrs[12 := ind], e, j) == MapBlock(d, ptrs, e, j)
    ensures SameBytes(d, ptrs, d', ptrs[12 := ind], e)
  {
    var ptrs' := ptrs[12 := ind];
    WriteFrame(d, ind, Zeros(4 * e), e);
    TableOfZeros(4 * e);
    LoadOne(d', ind);
    EmptyTable(ind, e);
    hide Read, Blocks;
    assert SlotGrown(d, ptrs, e, used, 12, d', ptrs', {ind}) by {
      assert Load(d, ptrs[12], 1) == Hole;
      assert Blocks(Hole) == {};
    }
    hide Load, SlotGrown;
    forall j: nat
      ensures MapBlock(d', ptrs', e, j) == MapBlock(d, ptrs, e, j)
    {
      AddTableMap(d, ptrs, e, used, ind, d', j);
    }
    GrownBytes(d, ptrs, e, used, 12, d', ptrs', {ind}, 0, MapBlock(d, ptrs, e, 0));
  }

  lemma AddTableMap(d: Disk, ptrs: seq<word>, e: nat, used: set<nat>, ind: word, d': Disk, j: nat)
    requires |ptrs| == 15 && ptrs[12] == 0 && SlotGrown(d, ptrs, e, used, 12, d', ptrs[12 := ind], {ind})
    requires ind != 0 && Table(Read(d', ind)) == seq(e, _ => 0)
    ensures MapBlock(d', ptrs[12 := ind], e, j) == MapBlock(d, ptrs, e, j)
  {
    hide Read, Load, Distinct, Lookup;
    if Home(e, j) == 12 {
      TableHome(e, j);
      MapThroughTable(d, ptrs, e, j - 12);
      MapThroughTable(d', ptrs[12 := ind], e, j - 12);
    } else {
      GrownMapElsewhere(d, ptrs, e, used, 12, d', ptrs[12 := ind], {ind}, j);
    }
  }

  lemma EntryGrown(d: Disk, ptrs: seq<word>, e: nat, used: set<nat>, idx: nat, b: word, d': Disk)
    requires Rooted(d, ptrs, e, used) && ptrs[12] != 0 && idx < e
    requires |Table(Read(d, ptrs[12]))| == e && Table(Read(d, ptrs[12]))[idx] == 0
    requires b !in used && 0 < b < |d|
    requires Geometry(d', e) && |d'| == |d| && Table(Read(d', ptrs[12])) == Table(Read(d, ptrs[12]))[idx := b]
    requires forall c: nat :: c != b && c != ptrs[12] ==> Read(d', c) == Read(d, c)
    ensures SlotGrown(d, ptrs, e, used, 12, d', ptrs, {b})
  {
    hide Read, Load, Distinct, Blocks, Tables;
    var ind, table := ptrs[12], Table(Read(d, ptrs[12]));
    LoadOne(d, ind);
    LoadOne(d', ind);
    OwnedTree(d, ptrs, e, used, 12);
    FillEntry(ind, table, idx, b);
    TableOwnsRoot(ind, table);
  }

  lemma TableOwnsRoot(ind: nat, table: seq<word>)
    ensures ind in Tables(Node(ind, Leaves(table))) && ind in Blocks(Node(ind, Leaves(table)))
  {
  }

  lemma AddEntryGrown(d: Disk, ptrs: seq<word>, e: nat, used: set<nat>, idx: nat, b: word, d': Disk)
    requires Rooted(d, ptrs, e, used) && ptrs[12] != 0 && ptrs[12] < |d| && ptrs[12] in used && idx < e
    requires Table(Read(d, ptrs[12]))[idx] == 0
    requires b !in used && 0 < b < |d|
    requires d' == d[b := Zeros(4 * e)][ptrs[12] := Pack(Table(Read(d, ptrs[12]))[idx := b])]
    ensures SlotGrown(d, ptrs, e, used, 12, d', ptrs, {b})
    ensures Table(Read(d', ptrs[12])) == Table(Read(d, ptrs[12]))[idx := b]
    ensures Read(d', b) == Zeros(4 * e)
  {
    hide Load, Distinct, SlotGrown, Owned, Whole;
    var ind, table := ptrs[12], Table(Read(d, ptrs[12]));
    var d1 := d[b := Zeros(4 * e)];
    WriteFrame(d, b, Zeros(4 * e), e);
    WriteFrame(d1, ind, Pack(table[idx := b]), e);
    TableOfPack(table[idx := b]);
    EntryGrown(d, ptrs, e, used, idx, b, d');
  }

  lemma AddEntry(d: Disk, ptrs: seq<word>, e: nat, used: set<nat>, idx: nat, b: word, d': Disk)
    requires Rooted(d, ptrs, e, used) && ptrs[12] != 0 && ptrs[12] < |d| && ptrs[12] in used && idx < e
    requires Table(Read(d, ptrs[12]))[idx] == 0
    requires b !in used && 0 < b < |d|
    requires d' == d[b := Zeros(4 * e)][ptrs[12] := Pack(Table(Read(d, ptrs[12]))[idx := b])]
    ensures SlotGrown(d, ptrs, e, used, 12, d', ptrs, {b})
    ensures Mapped(d, ptrs, d', ptrs, e, 12 + idx, b) && SameBytes(d, ptrs, d', ptrs, e)
  {
    hide Load, Distinct, SlotGrown;
    assert |Table(Read(d, ptrs[12]))| == e;
    AddEntryGrown(d, ptrs, e, used, idx, b, d');
    hide Read, MapBlock;
    forall j: nat
      ensures MapBlock(d', ptrs, e, j) == if j == 12 + idx then b else MapBlock(d, ptrs, e, j)
    {
      AddEntryMap(d, ptrs, e, used, idx, b, d', j);
    }
    MapThroughTable(d, ptrs, e, idx);
    GrownBytes(d, ptrs, e, used, 12, d', ptrs, {b}, 12 + idx, b);
  }

  lemma AddEntryMap(d: Disk, ptrs: seq<word>, e: nat, used: set<nat>, idx: nat, b: word, d': Disk, j: nat)
    requires SlotGrown(d, ptrs, e, used, 12, d', ptrs, {b}) && ptrs[12] != 0 && idx < e
    requires |Table(Read(d, ptrs[12]))| == e && Table(Read(d', ptrs[12])) == Table(Read(d, ptrs[12]))[idx := b]
    ensures MapBlock(d', ptrs, e, j) == if j == 12 + idx then b else MapBlock(d, ptrs, e, j)
  {
    hide Read, Load, Distinct, Lookup;
    TableHome(e, 12 + idx);
    if Home(e, j) == 12 {
      TableHome(e, j);
      MapThroughTable(d, ptrs, e, j - 12);
      MapThroughTable(d', ptrs, e, j - 12);
    } else {
      GrownMapElsewhere(d, ptrs, e, used, 12, d', ptrs, {b}, j);
    }
  }

  // ----- writing a mapped block

  lemma OverwrittenByte(d: Disk, ptrs: seq<word>, e: nat, used: set<nat>, i: nat, data: Block, d': Disk, x: nat)
    requires Rooted(d, ptrs, e, used) && |data| == 4 * e && MapBlock(d, ptrs, e, i) != 0
    requires Forest(d', ptrs) == Forest(d, ptrs)
    requires forall c: nat :: Read(d', c) == if c == MapBlock(d, ptrs, e, i) then data else Read(d, c)
    ensures RawByte(d', ptrs, e, x) == if BlockOf(e, x) == i then data[OffsetIn(e, x)] else RawByte(d, ptrs, e, x)
  {
    hide Load, MapBlock, Read, Distinct, Lookup, Forest, Whole, Owned, BlockOf, OffsetIn;
    var j := BlockOf(e, x);
    MapFrame(d, d', ptrs, e, j);
    if MapBlock(d, ptrs, e, j) == MapBlock(d, ptrs, e, i) {
      MapInjective(d, ptrs, e, used, i, j);
    }
  }

  /** Overwriting file block `i` changes exactly the bytes of that block. */
  lemma Overwritten(d: Disk, ptrs: seq<word>, e: nat, used: set<nat>, i: nat, data: Block)
    requires Rooted(d, ptrs, e, used) && |data| == 4 * e && MapBlock(d, ptrs, e, i) != 0
    ensures MapBlock(d, ptrs, e, i) < |d| && MapBlock(d, ptrs, e, i) in Owned(d, ptrs)
    ensures var d' := d[MapBlock(d, ptrs, e, i) := data];
      && Rooted(d', ptrs, e, used) && Forest(d', ptrs) == Forest(d, ptrs)
      && forall x: nat :: RawByte(d', ptrs, e, x) == if BlockOf(e, x) == i then data[OffsetIn(e, x)] else RawByte(d, ptrs, e, x)
  {
    hide Load, MapBlock, Read, Distinct, Lookup, RawByte, BlockOf, OffsetIn;
    MapOwned(d, ptrs, e, used, i);
    var b := MapBlock(d, ptrs, e, i);
    var d' := d[b := data];
    WriteFrame(d, b, data, e);
    ForestFrame(d, d', ptrs);
    assert forall c: nat :: Read(d', c) == if c == b then data else Read(d, c);
    forall x: nat
      ensures RawByte(d', ptrs, e, x) == if BlockOf(e, x) == i then data[OffsetIn(e, x)] else RawByte(d, ptrs, e, x)
    {
      OverwrittenByte(d, ptrs, e, used, i, data, d', x);
    }
  }

  // ----- a file that gained blocks

  /** The file is consistent again, owns more, and shows the same bytes; nothing else changed. */
  ghost predicate Grew(d: Disk, n: FileNode, used: set<nat>, d': Disk, n': FileNode, used': set<nat>, e: nat) {
    && NodeOk(d', n', e, used') && |n.ptrs| == 15 && n'.size == n.size
    && Keeps(d, used, Owned(d, n.ptrs), d', used', Owned(d', n'.ptrs))
    && SameBytes(d, n.ptrs, d', n'.ptrs, e)
  }

  lemma GrewNothing(d: Disk, n: FileNode, used: set<nat>, e: nat)
    requires NodeOk(d, n, e, used)
    ensures Grew(d, n, used, d, n, used, e)
  {
  }

  lemma GrewChain(d0: Disk, n0: FileNode, u0: set<nat>, d1: Disk, n1: FileNode, u1: set<nat>, d2: Disk, n2: FileNode, u2: set<nat>, e: nat)
    requires Grew(d0, n0, u0, d1, n1, u1, e) && Grew(d1, n1, u1, d2, n2, u2, e)
    ensures Grew(d0, n0, u0, d2, n2, u2, e)
  {
    hide NodeOk, Keeps, RawByte;
    assert |n1.ptrs| == 15 && |n2.ptrs| == 15 && e > 0 by { NodeSize(d1, n1, e, u1); NodeSize(d2, n2, e, u2); }
    KeepsChain(d0, u0, Owned(d0, n0.ptrs), d1, u1, Owned(d1, n1.ptrs), d2, u2, Owned(d2, n2.ptrs));
  }

  lemma NodeSize(d: Disk, n: FileNode, e: nat, used: set<nat>)
    requires NodeOk(d, n, e, used)
    ensures |n.ptrs| == 15 && e > 0
  {
  }

  lemma GrewSlot(d: Disk, n: FileNode, e: nat, used: set<nat>, k: nat, d': Disk, n': FileNode, b: nat)
    requires NodeOk(d, n, e, used) && SlotGrown(d, n.ptrs, e, used, k, d', n'.ptrs, {b})
    requires SameBytes(d, n.ptrs, d', n'.ptrs, e) && CacheOk(d', n')
    requires n'.size == n.size && n'.sectors == n.sectors + SectorsPerBlock(e)
    ensures Grew(d, n, used, d', n', used + {b}, e)
  {
    hide SlotGrown, Rooted, Keeps, Owned, SameBytes;
    GrownRooted(d, n.ptrs, e, used, k, d', n'.ptrs, {b});
    GrownKeeps(d, n.ptrs, e, used, k, d', n'.ptrs, {b});
    var s, o := SectorsPerBlock(e), |Owned(d, n.ptrs)|;
    assert s * (o + 1) == s * o + s;
  }

  // ----- a file cut to its first blocks

  /**
   * The file is cut to its first `keep` blocks: earlier blocks keep their place and bytes, later
   * ones are unmapped, and exactly the blocks the file no longer names are free again.
   */
  ghost predicate CutTo(d: Disk, ptrs: seq<word>, used: set<nat>, d': Disk, ptrs': seq<word>, used': set<nat>, e: nat, keep: nat) {
    && Rooted(d', ptrs', e, used') && |ptrs| == 15
    && Owned(d', ptrs') <= Owned(d, ptrs) && used' == used - (Owned(d, ptrs) - Owned(d', ptrs'))
    && Keeps(d, used, Owned(d, ptrs), d', used', Owned(d', ptrs'))
    && (forall i: nat :: MapBlock(d', ptrs', e, i) == if i < keep then MapBlock(d, ptrs, e, i) else 0)
    && (forall x: nat :: RawByte(d', ptrs', e, x) == if BlockOf(e, x) < keep then RawByte(d, ptrs, e, x) else 0)
  }

  lemma WalkedForest(d: Disk, ptrs: seq<word>, e: nat, keep: nat, d': Disk, ptrs': seq<word>, used: set<nat>, used': set<nat>, freed: nat)
    requires |ptrs| == 15
    requires Walked(Whole(d, ptrs), CutForest(d, ptrs, e, keep), Levels(), d, d', ptrs', 15, used, used', freed)
    ensures |ptrs'| == 15 && Forest(d', ptrs') == CutForest(d, ptrs, e, keep) && |d'| == |d|
    ensures used' == used - (Owned(d, ptrs) - Owned(d', ptrs'))
    ensures freed == |Owned(d, ptrs) - Owned(d', ptrs')|
    ensures forall b :: b !in TablesOfAll(Forest(d', ptrs')) ==> Read(d', b) == Read(d, b)
  {
    hide Load, Read, Prune;
    var p := CutForest(d, ptrs, e, keep);
    PrefixAll(p);
    PrefixAll(Forest(d, ptrs));
    assert Forest(d', ptrs') == p;
  }

  lemma CutByte(d: Disk, ptrs: seq<word>, e: nat, used: set<nat>, keep: nat, d': Disk, ptrs': seq<word>, x: nat)
    requires Rooted(d, ptrs, e, used) && |ptrs'| == 15 && Forest(d', ptrs') == CutForest(d, ptrs, e, keep)
    requires forall b :: b !in TablesOfAll(Forest(d, ptrs)) ==> Read(d', b) == Read(d, b)
    ensures RawByte(d', ptrs', e, x) == if BlockOf(e, x) < keep then RawByte(d, ptrs, e, x) else 0
  {
    hide Load, Read, Prune, MapBlock, Distinct, Owned, Whole, Forest, CutForest, TablesOfAll, BlockOf, OffsetIn;
    CutMap(d, ptrs, e, used, keep, d', ptrs', BlockOf(e, x));
    MapOwned(d, ptrs, e, used, BlockOf(e, x));
  }

  lemma CutKeeps(d: Disk, ptrs: seq<word>, e: nat, used: set<nat>, keep: nat, d': Disk, ptrs': seq<word>, used': set<nat>)
    requires Rooted(d, ptrs, e, used) && |ptrs'| == 15 && Forest(d', ptrs') == CutForest(d, ptrs, e, keep) && |d'| == |d|
    requires used' == used - (Owned(d, ptrs) - Owned(d', ptrs')) && Geometry(d', e)
    requires forall b :: b !in TablesOfAll(Forest(d', ptrs')) ==> Read(d', b) == Read(d, b)
    ensures Rooted(d', ptrs', e, used') && Owned(d', ptrs') <= Owned(d, ptrs)
    ensures Keeps(d, used, Owned(d, ptrs), d', used', Owned(d', ptrs'))
    ensures TablesOfAll(Forest(d', ptrs')) <= TablesOfAll(Forest(d, ptrs))
  {
    hide Load, Read, Prune, Distinct;
    CutBelow(d, ptrs, e, keep);
    CutDistinct(d, ptrs, e, keep);
    BlocksOfAllMonotone(CutForest(d, ptrs, e, keep), Forest(d, ptrs));
    TablesOfAllAreBlocks(Forest(d', ptrs'));
  }

  lemma CutDone(d: Disk, ptrs: seq<word>, e: nat, used: set<nat>, keep: nat, d': Disk, ptrs': seq<word>, used': set<nat>, freed: nat)
    requires Rooted(d, ptrs, e, used) && Geometry(d', e)
    requires Walked(Whole(d, ptrs), CutForest(d, ptrs, e, keep), Levels(), d, d', ptrs', 15, used, used', freed)
    ensures CutTo(d, ptrs, used, d', ptrs', used', e, keep)
    ensures freed == |Owned(d, ptrs)| - |Owned(d', ptrs')|
  {
    hide Load, Read, Prune, Distinct, Walked, MapBlock, RawByte, Keeps, Owned, Whole, Forest, CutForest, TablesOfAll, BlockOf, OffsetIn;
    WalkedForest(d, ptrs, e, keep, d', ptrs', used, used', freed);
    CutKeeps(d, ptrs, e, used, keep, d', ptrs', used');
    SubsetSize(Owned(d, ptrs), Owned(d', ptrs'));
    forall i: nat
      ensures MapBlock(d', ptrs', e, i) == if i < keep then MapBlock(d, ptrs, e, i) else 0
    {
      CutMap(d, ptrs, e, used, keep, d', ptrs', i);
    }
    forall x: nat
      ensures RawByte(d', ptrs', e, x) == if BlockOf(e, x) < keep then RawByte(d, ptrs, e, x) else 0
    {
      CutByte(d, ptrs, e, used, keep, d', ptrs', x);
    }
  }

  /** Nothing to do for a pointer whose blocks all lie before the cut. */
  lemma {:induction false} WalkSkip(d: Disk, ptrs: seq<word>, e: nat, used: set<nat>, keep: nat, j: nat)
    requires Rooted(d, ptrs, e, used) && j <= 12 && j <= keep
    ensures Walked(Whole(d, ptrs), CutForest(d, ptrs, e, keep), Levels(), d, d, ptrs, j, used, used, 0)
  {
    hide Load, Read, Prune, Distinct, Walked, EntryDone, Below;
    var w, p := Whole(d, ptrs), CutForest(d, ptrs, e, keep);
    CutBelow(d, ptrs, e, keep);
    if j == 0 {
      WalkStart(w, p, Levels(), d, ptrs, used);
    } else {
      WalkSkip(d, ptrs, e, used, keep, j - 1);
      var t := Load(d, ptrs[j - 1], 0);
      DirectHome(e, j - 1);
      PruneOutside(t, e, 0, j - 1, keep);
      NothingDone(t, 0, d, ptrs[j - 1], used);
      WalkStep(w, p, Levels(), d, d, ptrs, j - 1, used, used, 0, d, ptrs[j - 1], used, 0);
      assert ptrs[j - 1 := ptrs[j - 1]] == ptrs;
    }
  }

  // ----- bytes and blocks

  lemma DivideOnce(q: int, r: int, s: nat, y: nat)
    requires s > 0 && y == q * s + r && 0 <= r < s
    ensures y / s == q && y % s == r
  {
    var p := y / s;
    assert y == p * s + y % s;
    MulMonotone(p + 1, q, s);
    MulMonotone(q + 1, p, s);
  }

  /** The bytes of a chunk that stays inside one block. */
  lemma ChunkByte(e: nat, cursor: nat, k: nat)
    requires e > 0 && OffsetIn(e, cursor) + k < 4 * e
    ensures BlockOf(e, cursor + k) == BlockOf(e, cursor) && OffsetIn(e, cursor + k) == OffsetIn(e, cursor) + k
  {
    var s: nat := 4 * e;
    assert cursor == cursor / s * s + cursor % s;
    DivideOnce(cursor / s, cursor % s + k, s, cursor + k);
  }

  /** Byte numbers of one block are consecutive. */
  lemma SameBlock(e: nat, x: nat, y: nat)
    requires e > 0 && BlockOf(e, x) == BlockOf(e, y)
    ensures x - OffsetIn(e, x) == y - OffsetIn(e, y)
  {
    var s: nat := 4 * e;
    assert x == x / s * s + x % s;
    assert y == y / s * s + y % s;
  }

  lemma BlockOrder(e: nat, x: nat, y: nat)
    requires e > 0 && x <= y
    ensures BlockOf(e, x) <= BlockOf(e, y)
  {
    var s: nat := 4 * e;
    assert x == x / s * s + x % s;
    assert y == y / s * s + y % s;
    MulMonotone(y / s + 1, x / s, s);
  }

  lemma BlocksInIs(e: nat, len: nat)
    requires e > 0
    ensures BlocksIn(len, 4 * e) == BlockOf(e, len) + if OffsetIn(e, len) == 0 then 0 else 1
  {
    var s: nat := 4 * e;
    assert len == len / s * s + len % s;
    if len % s == 0 {
      DivideOnce(len / s, s - 1, s, len + s - 1);
    } else {
      assert (len / s + 1) * s == len / s * s + s;
      DivideOnce(len / s + 1, len % s - 1, s, len + s - 1);
    }
  }

  /** Which bytes the kept blocks of a truncated file cover. */
  lemma KeptBytes(e: nat, len: nat, x: nat)
    requires e > 0
    ensures x < len ==> BlockOf(e, x) < BlocksIn(len, 4 * e)
    ensures len <= x && BlockOf(e, x) < BlocksIn(len, 4 * e) ==> BlockOf(e, x) == BlockOf(e, len) && OffsetIn(e, len) != 0
    ensures BlockOf(e, x) == BlockOf(e, len) ==> (len <= x <==> OffsetIn(e, len) <= OffsetIn(e, x))
  {
    hide BlockOf, OffsetIn, BlocksIn;
    BlocksInIs(e, len);
    if BlockOf(e, x) == BlockOf(e, len) {
      SameBlock(e, x, len);
    }
    if x < len {
      BlockOrder(e, x, len);
    } else {
      BlockOrder(e, len, x);
    }
  }

  /** The bytes `off .. off + done` are those of `data`; all others are as in the first state. */
  ghost predicate Patched(d: Disk, ptrs: seq<word>, d': Disk, ptrs': seq<word>, e: nat, off: nat, data: seq<byte>, done: nat)
    requires |ptrs| == 15 && |ptrs'| == 15 && e > 0 && done <= |data|
  {
    forall x: nat :: RawByte(d', ptrs', e, x) == if off <= x < off + done then data[x - off] else RawByte(d, ptrs, e, x)
  }

  /** A mapped block shows its own bytes. */
  lemma ShownByte(d: Disk, ptrs: seq<word>, e: nat, used: set<nat>, x: nat)
    requires Rooted(d, ptrs, e, used) && MapBlock(d, ptrs, e, BlockOf(e, x)) != 0
    ensures |Read(d, MapBlock(d, ptrs, e, BlockOf(e, x)))| == 4 * e
    ensures RawByte(d, ptrs, e, x) == Read(d, MapBlock(d, ptrs, e, BlockOf(e, x)))[OffsetIn(e, x)]
  {
    hide MapBlock, BlockOf, OffsetIn, Distinct, Owned, Whole;
    MapOwned(d, ptrs, e, used, BlockOf(e, x));
  }

  /** One chunk of a write: the patched range grows by the chunk. */
  lemma PatchByte(d0: Disk, ptrs0: seq<word>, d: Disk, ptrs: seq<word>, e: nat, used: set<nat>,
                  off: nat, data: seq<byte>, done: nat, c: nat, old_: Block, x: nat)
    requires |ptrs0| == 15 && Rooted(d, ptrs, e, used) && done + c <= |data|
    requires OffsetIn(e, off + done) + c <= 4 * e && |old_| == 4 * e
    requires MapBlock(d, ptrs, e, BlockOf(e, off + done)) != 0
    requires old_ == Read(d, MapBlock(d, ptrs, e, BlockOf(e, off + done)))
    requires Patched(d0, ptrs0, d, ptrs, e, off, data, done)
    ensures var block := Splice(old_, OffsetIn(e, off + done), data[done..done + c]);
            var shown := if BlockOf(e, x) == BlockOf(e, off + done) then block[OffsetIn(e, x)] else RawByte(d, ptrs, e, x);
            shown == if off <= x < off + done + c then data[x - off] else RawByte(d0, ptrs0, e, x)
  {
    hide MapBlock, BlockOf, OffsetIn, Distinct, RawByte, Read;
    var cursor := off + done;
    if cursor <= x < cursor + c {
      ChunkByte(e, cursor, x - cursor);
    } else if BlockOf(e, x) == BlockOf(e, cursor) {
      SameBlock(e, x, cursor);
      ShownByte(d, ptrs, e, used, x);
    }
  }

  /** Overwriting a data block keeps the inode consistent. */
  lemma OverwrittenNode(d: Disk, n: FileNode, e: nat, used: set<nat>, i: nat, data: Block)
    requires NodeOk(d, n, e, used) && |data| == 4 * e && MapBlock(d, n.ptrs, e, i) != 0
    ensures MapBlock(d, n.ptrs, e, i) < |d|
    ensures var d' := d[MapBlock(d, n.ptrs, e, i) := data];
      NodeOk(d', n, e, used) && Keeps(d, used, Owned(d, n.ptrs), d', used, Owned(d', n.ptrs))
  {
    hide MapBlock, Distinct, RawByte;
    Overwritten(d, n.ptrs, e, used, i, data);
    MapOwned(d, n.ptrs, e, used, i);
    WriteFrame(d, MapBlock(d, n.ptrs, e, i), data, e);
    if n.ptrs[12] != 0 {
      LoadOne(d, n.ptrs[12]);
      TableOwnsRoot(n.ptrs[12], Table(Read(d, n.ptrs[12])));
      OwnedTree(d, n.ptrs, e, used, 12);
    }
  }

  /** Writing one chunk into its mapped block patches exactly the chunk. */
  lemma PatchChunk(d0: Disk, ptrs0: seq<word>, d: Disk, ptrs: seq<word>, e: nat, used: set<nat>,
                   off: nat, data: seq<byte>, done: nat, c: nat, old_: Block, block: Block)
    requires |ptrs0| == 15 && Rooted(d, ptrs, e, used) && done + c <= |data|
    requires OffsetIn(e, off + done) + c <= 4 * e && |old_| == 4 * e
    requires MapBlock(d, ptrs, e, BlockOf(e, off + done)) != 0
    requires old_ == Read(d, MapBlock(d, ptrs, e, BlockOf(e, off + done)))
    requires block == Splice(old_, OffsetIn(e, off + done), data[done..done + c])
    requires Patched(d0, ptrs0, d, ptrs, e, off, data, done)
    ensures MapBlock(d, ptrs, e, BlockOf(e, off + done)) < |d|
    ensures Patched(d0, ptrs0, d[MapBlock(d, ptrs, e, BlockOf(e, off + done)) := block], ptrs, e, off, data, done + c)
  {
    hide MapBlock, BlockOf, OffsetIn, Distinct, RawByte, Read, Patched;
    var i := BlockOf(e, off + done);
    Overwritten(d, ptrs, e, used, i, block);
    forall x: nat
      ensures var shown := if BlockOf(e, x) == i then block[OffsetIn(e, x)] else RawByte(d, ptrs, e, x);
              shown == if off <= x < off + (done + c) then data[x - off] else RawByte(d0, ptrs0, e, x)
    {
      PatchByte(d0, ptrs0, d, ptrs, e, used, off, data, done, c, old_, x);
    }
    PatchedAgain(d0, ptrs0, d[MapBlock(d, ptrs, e, i) := block], ptrs, e, off, data, done + c);
  }

  lemma PatchedAgain(d0: Disk, ptrs0: seq<word>, d: Disk, ptrs: seq<word>, e: nat, off: nat, data: seq<byte>, done: nat)
    requires |ptrs0| == 15 && |ptrs| == 15 && e > 0 && done <= |data|
    requires forall x: nat :: RawByte(d, ptrs, e, x) == if off <= x < off + done then data[x - off] else RawByte(d0, ptrs0, e, x)
    ensures Patched(d0, ptrs0, d, ptrs, e, off, data, done)
  {
  }
}
