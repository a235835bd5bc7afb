/**
 * Directories of a mounted volume: their records lie in blocks that the file code maps, and a
 * directory that is full grows by a block of the same allocator.
 */
module Folders {
  import opened Bytes
  import opened BlockTree
  import opened ItemAllocator
  import opened BlockStore
  import opened FileTree
  import opened FileSteps
  import opened FileOps
  import DirRecords
  import Directory

  type Name = DirRecords.Name
  type Listing = Directory.Listing

  /** The block that holds file block `i`; nothing when it is not mapped. */
  ghost function BlockAt(d: Disk, ptrs: seq<word>, e: nat, i: nat): seq<byte>
    requires |ptrs| == 15 && e > 0
  {
    var b := MapBlock(d, ptrs, e, i);
    if b == 0 then [] else Read(d, b)
  }

  ghost function FolderBlocks(d: Disk, n: FileNode, e: nat): (bs: Directory.Blocks)
    requires |n.ptrs| == 15 && e > 0
    ensures |bs| == BlocksIn(n.size, 4 * e)
    ensures forall i :: 0 <= i < |bs| ==> bs[i] == BlockAt(d, n.ptrs, e, i)
  {
    seq(BlocksIn(n.size, 4 * e), i requires 0 <= i < BlocksIn(n.size, 4 * e) => BlockAt(d, n.ptrs, e, i))
  }

  /** The blocks of the inode are those of a directory. */
  ghost predicate FolderOk(d: Disk, n: FileNode, e: nat) {
    |n.ptrs| == 15 && 66 <= e < 0x4000 && Directory.Consistent(FolderBlocks(d, n, e), 4 * e)
  }

  /** The names of a directory and what they stand for. */
  ghost function ListingOf(d: Disk, n: FileNode, e: nat): Listing
    requires |n.ptrs| == 15 && e > 0
  {
    DirRecords.AsMap(Directory.All(FolderBlocks(d, n, e)))
  }

  /** One more block can be mapped behind the directory. */
  ghost predicate CanGrow(d: Disk, n: FileNode, e: nat, room: nat)
    requires |n.ptrs| == 15 && e > 0
  {
    var i := BlocksIn(n.size, 4 * e);
    i < 12 + e && BlockNeed(d, n.ptrs, e, i) <= room
  }

  /** There is a place for a new name. */
  ghost predicate PlaceFor(d: Disk, n: FileNode, e: nat, room: nat, name: Name)
    requires |n.ptrs| == 15 && e > 0
  {
    Directory.RoomSomewhere(FolderBlocks(d, n, e), DirRecords.EntrySize(|name|)) || CanGrow(d, n, e, room)
  }

  /**
   * There is none exactly when every record of every block is too full, a dead one by all of its size and a live
   * one by what its own name leaves, and no block can be added: the directory reaches too far, or as many as two
   * are needed and not free.
   */
  lemma PlaceIs(d: Disk, n: FileNode, e: nat, room: nat, name: Name)
    requires |n.ptrs| == 15 && e > 0
    ensures !PlaceFor(d, n, e, room, name) ==> BlocksIn(n.size, 4 * e) >= 12 + e || room < 2
    ensures !PlaceFor(d, n, e, room, name) ==> forall i, k :: 0 <= i < |FolderBlocks(d, n, e)| && 0 <= k < |DirRecords.Records(FolderBlocks(d, n, e)[i], 0)| ==>
              Narrow(DirRecords.Records(FolderBlocks(d, n, e)[i], 0)[k], |name|)
    ensures room > 0 && BlocksIn(n.size, 4 * e) < 12 ==> PlaceFor(d, n, e, room, name)
  {
    hide BlocksIn, MapBlock, DirRecords.Records, DirRecords.EntrySize, FolderBlocks;
  }

  /** The record has no room for another name of this length: its own and a new one, each rounded up to fours. */
  predicate Narrow(r: DirRecords.Rec, len: nat) {
    r.size < (8 + len + 3) / 4 * 4 + if r.inode == 0 then 0 else (8 + |r.name| + 3) / 4 * 4
  }

  /** What is in the blocks of a file is all that its directory depends on. */
  ghost predicate SameBlocks(d: Disk, ptrs: seq<word>, d': Disk, ptrs': seq<word>, e: nat)
    requires |ptrs| == 15 && |ptrs'| == 15 && e > 0
  {
    forall i: nat :: BlockAt(d', ptrs', e, i) == BlockAt(d, ptrs, e, i)
  }

  lemma SameFolder(d: Disk, n: FileNode, d': Disk, n': FileNode, e: nat)
    requires |n.ptrs| == 15 && |n'.ptrs| == 15 && e > 0 && n'.size == n.size && SameBlocks(d, n.ptrs, d', n'.ptrs, e)
    ensures FolderBlocks(d', n', e) == FolderBlocks(d, n, e)
  {
    hide BlockAt;
  }

  /** A block of the file is written: the others stay what they were. */
  lemma BlockWritten(d: Disk, ptrs: seq<word>, e: nat, used: set<nat>, i: nat, data: Block, j: nat)
    requires Rooted(d, ptrs, e, used) && |data| == 4 * e && MapBlock(d, ptrs, e, i) != 0
    ensures MapBlock(d, ptrs, e, i) < |d|
    ensures BlockAt(d[MapBlock(d, ptrs, e, i) := data], ptrs, e, j) == if j == i then data else BlockAt(d, ptrs, e, j)
  {
    var b := MapBlock(d, ptrs, e, i);
    Overwritten(d, ptrs, e, used, i, data);
    MapFrame(d, d[b := data], ptrs, e, j);
    WriteFrame(d, b, data, e);
    hide MapBlock, Forest, RawByte, Rooted, Read;
    if j != i && MapBlock(d, ptrs, e, j) == b {
      MapInjective(d, ptrs, e, used, i, j);
    }
  }

  lemma FolderWritten(d: Disk, n: FileNode, e: nat, used: set<nat>, i: nat, data: Block)
    requires NodeOk(d, n, e, used) && |data| == 4 * e && i < BlocksIn(n.size, 4 * e) && MapBlock(d, n.ptrs, e, i) != 0
    ensures MapBlock(d, n.ptrs, e, i) < |d|
    ensures FolderBlocks(d[MapBlock(d, n.ptrs, e, i) := data], n, e) == FolderBlocks(d, n, e)[i := data]
  {
    hide BlockAt, MapBlock, Rooted;
    NodeSize(d, n, e, used);
    BlockWritten(d, n.ptrs, e, used, i, data, i);
    forall j: nat
      ensures BlockAt(d[MapBlock(d, n.ptrs, e, i) := data], n.ptrs, e, j) == if j == i then data else BlockAt(d, n.ptrs, e, j)
    {
      BlockWritten(d, n.ptrs, e, used, i, data, j);
    }
  }

  /** Growing a file leaves its blocks what they were, but for the new one, which is empty. */
  lemma FolderGrew(d: Disk, n: FileNode, used: set<nat>, d': Disk, n': FileNode, used': set<nat>, e: nat, i: nat, ok: bool, b: nat, j: nat)
    requires NodeOk(d, n, e, used) && Grew(d, n, used, d', n', used', e) && |n'.ptrs| == 15
    requires i >= 12 + e ==> n' == n && d' == d
    requires i < 12 + e ==> MapsTo(d, n.ptrs, d', n'.ptrs, e, i, ok, b)
    requires !ok || j != i
    ensures BlockAt(d', n'.ptrs, e, j) == BlockAt(d, n.ptrs, e, j)
  {
    hide MapBlock, Rooted, Keeps, Read, RawByte, BlockOf, OffsetIn;
    NodeSize(d, n, e, used);
    var c := MapBlock(d, n.ptrs, e, j);
    if i < 12 + e && c != 0 {
      SameWhole(d, n.ptrs, used, d', n'.ptrs, used', e, j);
    }
  }

  /** A block that stays in place shows the same bytes, so it holds them. */
  lemma SameWhole(d: Disk, ptrs: seq<word>, used: set<nat>, d': Disk, ptrs': seq<word>, used': set<nat>, e: nat, j: nat)
    requires |ptrs| == 15 && |ptrs'| == 15 && e > 0 && Rooted(d, ptrs, e, used) && Rooted(d', ptrs', e, used')
    requires SameBytes(d, ptrs, d', ptrs', e)
    requires MapBlock(d', ptrs', e, j) == MapBlock(d, ptrs, e, j) != 0
    ensures Read(d', MapBlock(d, ptrs, e, j)) == Read(d, MapBlock(d, ptrs, e, j))
  {
    hide MapBlock, RawByte, Rooted, Read;
    var b := MapBlock(d, ptrs, e, j);
    WholeRead(d, ptrs, used, e, j);
    WholeRead(d', ptrs', used', e, j);
    forall k: nat | k < 4 * e
      ensures Read(d', b)[k] == Read(d, b)[k]
    {
      var x := j * (4 * e) + k;
      InBlock(e, j, k);
      ShownByte(d, ptrs, e, used, x);
      ShownByte(d', ptrs', e, used', x);
    }
  }

  lemma WholeRead(d: Disk, ptrs: seq<word>, used: set<nat>, e: nat, j: nat)
    requires Rooted(d, ptrs, e, used) && MapBlock(d, ptrs, e, j) != 0
    ensures |Read(d, MapBlock(d, ptrs, e, j))| == 4 * e
  {
    hide MapBlock, Owned, Distinct;
    MapOwned(d, ptrs, e, used, j);
  }

  lemma InBlock(e: nat, j: nat, k: nat)
    requires e > 0 && k < 4 * e
    ensures BlockOf(e, j * (4 * e) + k) == j && OffsetIn(e, j * (4 * e) + k) == k
  {
    DivideOnce(j, k, 4 * e, j * (4 * e) + k);
  }

  class Catalog {
    const files: Files

    constructor (files: Files)
      ensures this.files == files
    {
      this.files := files;
    }

    ghost predicate Ok(n: FileNode)
      reads files.store, files.store.items
    {
      files.Ok(n) && FolderOk(files.store.disk, n, files.store.e)
    }

    ghost function Blocks(n: FileNode): Directory.Blocks
      requires Ok(n)
      reads files.store, files.store.items
    {
      FolderBlocks(files.store.disk, n, files.store.e)
    }

    ghost function Names(n: FileNode): Listing
      requires Ok(n)
      reads files.store, files.store.items
    {
      ListingOf(files.store.disk, n, files.store.e)
    }

    /** Block `i` of the directory on disk. */
    lemma BlockIs(n: FileNode, i: nat)
      requires Ok(n) && i < |Blocks(n)|
      ensures var b := MapBlock(files.store.disk, n.ptrs, files.store.e, i);
        && Blocks(n)[i] == (if b == 0 then [] else Read(files.store.disk, b))
        && (b != 0 ==> b < |files.store.disk| && |Read(files.store.disk, b)| == 4 * files.store.e && Read(files.store.disk, b) == files.store.disk[b])
    {
      hide MapBlock, Owned, Distinct, Directory.Consistent;
      files.NodeRooted(n);
      MapOwned(files.store.disk, n.ptrs, files.store.e, files.store.Used(), i);
    }

    lemma GoodBlock(n: FileNode, i: nat)
      requires Ok(n) && i < |Blocks(n)|
      ensures Directory.Good(Blocks(n)[i], 4 * files.store.e)
    {
      hide MapBlock, NodeOk, FolderBlocks, Directory.Good;
    }

    /** Looks a name up, block by block: the disk block and the place of its record. */
    method Find(n: FileNode, name: Name) returns (found: bool, b: nat, pos: nat, ghost i: nat)
      requires Ok(n)
      ensures found == (name in Names(n))
      ensures found ==> i < |Blocks(n)| && Directory.Names(Blocks(n)[i], pos, name)
      ensures found ==> |n.ptrs| == 15 && files.store.e > 0 && b == MapBlock(files.store.disk, n.ptrs, files.store.e, i) != 0
    {
      hide NodeOk, Counted, TakenSet, MapBlock, DirRecords.AsMap, DirRecords.Records, Directory.All, Directory.Names, Directory.Good, FolderBlocks;
      files.NodeRooted(n);
      ghost var bs := Blocks(n);
      Directory.NoEmptyName(bs, 4 * files.store.e);
      i, b, pos := 0, 0, 0;
      if name == [] {
        return false, 0, 0, 0;
      }
      Directory.EmptyMap();
      Directory.NoBlocks();
      var count := BlocksIn(n.size, 4 * files.store.e);
      BlockCount(n);
      for k := 0 to count
        invariant name !in DirRecords.AsMap(Directory.All(bs[..k]))
      {
        b := files.BlockForIndex(n, k);
        BlockIs(n, k);
        Directory.InBlock(bs, k, name);
        if b == 0 {
          Directory.NoRecords();
          continue;
        }
        found, pos := Directory.FindIn(files.store.disk[b], name);
        if found {
          i := k;
          return;
        }
      }
      assert bs[..count] == bs;
      found := false;
    }

    lemma BlockCount(n: FileNode)
      requires Ok(n)
      ensures |Blocks(n)| == BlocksIn(n.size, 4 * files.store.e)
    {
    }

    /** Lets a name stand for another inode, or for none. */
    method Change(n: FileNode, name: Name, inode: word, kind: byte) returns (ok: bool, was: DirRecords.Entry)
      requires Ok(n)
      modifies files.store`disk
      ensures Ok(n) && files.store.Used() == old(files.store.Used()) && ok == (name in old(Names(n)))
      ensures ok ==> was == old(Names(n))[name]
      ensures ok ==> Names(n) == if inode == 0 then old(Names(n)) - {name} else old(Names(n))[name := DirRecords.Entry(inode, kind)]
      ensures !ok ==> files.store.disk == old(files.store.disk)
      ensures Keeps(old(files.store.disk), files.store.Used(), Owned(old(files.store.disk), n.ptrs),
                    files.store.disk, files.store.Used(), Owned(files.store.disk, n.ptrs))
    {
      hide NodeOk, Counted, TakenSet, MapBlock, Keeps, Owned, FolderBlocks, DirRecords.AsMap, Directory.All, Directory.Consistent, DirRecords.PutHeader;
      was := DirRecords.Entry(0, 0);
      var b, pos;
      ghost var i;
      ok, b, pos, i := Find(n, name);
      KeepsItself(n);
      if !ok {
        return;
      }
      ghost var d, u, bs := files.store.disk, files.store.Used(), Blocks(n);
      BlockIs(n, i);
      Directory.Altered(bs, 4 * files.store.e, i, pos, name, inode, kind);
      var block := files.store.disk[b];
      NamedThere(block, pos, name);
      var h := DirRecords.HeaderAt(block, pos);
      was := DirRecords.Entry(h.inode, h.kind);
      block := DirRecords.PutHeader(block, pos, h.(inode := inode, kind := kind));
      BlockCount(n);
      FolderWritten(d, n, files.store.e, u, i, block);
      OverwrittenNode(d, n, files.store.e, u, i, block);
      files.store.WriteBlock(b, block);
    }

    /** Removes a name and says what it stood for. */
    method Remove(n: FileNode, name: Name) returns (ok: bool, was: DirRecords.Entry)
      requires Ok(n)
      modifies files.store`disk
      ensures Ok(n) && files.store.Used() == old(files.store.Used()) && ok == (name in old(Names(n)))
      ensures ok ==> was == old(Names(n))[name]
      ensures Names(n) == old(Names(n)) - {name}
      ensures Keeps(old(files.store.disk), files.store.Used(), Owned(old(files.store.disk), n.ptrs),
                    files.store.disk, files.store.Used(), Owned(files.store.disk, n.ptrs))
    {
      hide NodeOk, FolderOk, Keeps, ListingOf, Owned;
      ok, was := Change(n, name, 0, 0);
    }

    /** Lets an existing name stand for another inode. */
    method Replace(n: FileNode, name: Name, inode: word, kind: byte) returns (ok: bool)
      requires Ok(n)
      modifies files.store`disk
      ensures Ok(n) && files.store.Used() == old(files.store.Used()) && ok == (inode != 0 && name in old(Names(n)))
      ensures Names(n) == if ok then old(Names(n))[name := DirRecords.Entry(inode, kind)] else old(Names(n))
      ensures Keeps(old(files.store.disk), files.store.Used(), Owned(old(files.store.disk), n.ptrs),
                    files.store.disk, files.store.Used(), Owned(files.store.disk, n.ptrs))
    {
      hide NodeOk, FolderOk, Keeps, ListingOf, Owned;
      if inode == 0 {
        KeepsItself(n);
        return false;
      }
      var was;
      ok, was := Change(n, name, inode, kind);
    }

    /** The first record with room for a new one. */
    method FindRoom(n: FileNode, need: nat) returns (found: bool, b: nat, pos: nat, ghost i: nat)
      requires Ok(n)
      ensures found <==> Directory.RoomSomewhere(Blocks(n), need)
      ensures found ==> |n.ptrs| == 15 && files.store.e > 0 && i < |Blocks(n)| && b == MapBlock(files.store.disk, n.ptrs, files.store.e, i) != 0
      ensures found ==> var block := Blocks(n)[i];
                DirRecords.Leads(block, 0, pos) && DirRecords.Sound(block, pos) && Directory.HasRoom(DirRecords.RecAt(block, pos), need)
    {
      hide NodeOk, Counted, TakenSet, MapBlock, FolderBlocks, Directory.Good, DirRecords.Records, DirRecords.Leads, DirRecords.RecAt, Directory.HasRoom, DirRecords.Sound;
      files.NodeRooted(n);
      ghost var bs := Blocks(n);
      i, b, pos := 0, 0, 0;
      var count := BlocksIn(n.size, 4 * files.store.e);
      BlockCount(n);
      for k := 0 to count
        invariant forall j :: 0 <= j < k ==> Directory.NoRoom(bs[j], need)
      {
        b := files.BlockForIndex(n, k);
        BlockIs(n, k);
        if b == 0 {
          Directory.NoRecords();
          continue;
        }
        GoodBlock(n, k);
        Directory.RoomyBlock(bs[k], 4 * files.store.e);
        found, pos := Directory.FindRoom(files.store.disk[b], need);
        if found {
          i := k;
          Directory.RoomThere(bs, k, pos, need);
          return;
        }
      }
      found := false;
    }

    /**
     * Enters a new name: in a record with room for it, or else in a new block, which the allocator
     * must have and the file code must be able to map.
     */
    method Add(n: FileNode, name: Name, inode: word, kind: byte) returns (ok: bool, n': FileNode)
      requires Ok(n) && name !in Names(n)
      modifies files.store`disk, files.store.items
      ensures Ok(n') && Names(n') == if ok then old(Names(n))[name := DirRecords.Entry(inode, kind)] else old(Names(n))
      ensures ok <==> && name != [] && |name| <= 255 && inode != 0
                      && PlaceFor(old(files.store.disk), n, files.store.e, old(files.store.Room()), name)
      ensures Keeps(old(files.store.disk), old(files.store.Used()), Owned(old(files.store.disk), n.ptrs),
                    files.store.disk, files.store.Used(), Owned(files.store.disk, n'.ptrs))
    {
      hide NodeOk, Counted, TakenSet, MapBlock, Keeps, Owned, FolderBlocks, DirRecords.AsMap, Directory.All, Directory.Consistent;
      hide Directory.HasRoom, DirRecords.Leads, DirRecords.RecAt, DirRecords.Sound, Directory.RoomSomewhere, Directory.Written, CanGrow, BlocksIn;
      KeepsItself(n);
      n' := n;
      if name == [] || |name| > 255 || inode == 0 {
        return false, n;
      }
      var need := DirRecords.EntrySize(|name|);
      var b, pos;
      ghost var i;
      ok, b, pos, i := FindRoom(n, need);
      if !ok {
        ok, n' := Grow(n, name, inode, kind);
        return;
      }
      ghost var d, u, bs := files.store.disk, files.store.Used(), Blocks(n);
      BlockIs(n, i);
      GoodBlock(n, i);
      Directory.RoomyBlock(bs[i], 4 * files.store.e);
      var block := Directory.Enter(files.store.disk[b], pos, name, inode, kind, need);
      Directory.Entered(bs, 4 * files.store.e, i, pos, block, name, inode, kind);
      EnteredSize(files.store.disk[b], pos, block, name, inode, kind);
      BlockCount(n);
      FolderWritten(d, n, files.store.e, u, i, block);
      OverwrittenNode(d, n, files.store.e, u, i, block);
      files.store.WriteBlock(b, block);
    }

    /** A new block with one record that fills it. */
    method Grow(n: FileNode, name: Name, inode: word, kind: byte) returns (ok: bool, n': FileNode)
      requires Ok(n) && name !in Names(n) && name != [] && |name| <= 255 && inode != 0
      modifies files.store`disk, files.store.items
      ensures Ok(n') && Names(n') == if ok then old(Names(n))[name := DirRecords.Entry(inode, kind)] else old(Names(n))
      ensures ok <==> CanGrow(old(files.store.disk), n, files.store.e, old(files.store.Room()))
      ensures Keeps(old(files.store.disk), old(files.store.Used()), Owned(old(files.store.disk), n.ptrs),
                    files.store.disk, files.store.Used(), Owned(files.store.disk, n'.ptrs))
    {
      hide NodeOk, Counted, TakenSet, MapBlock, Keeps, Owned, FolderBlocks, DirRecords.AsMap, Directory.All, Directory.Consistent, Grew, MapsTo, BlockNeed, BlocksIn;
      files.NodeRooted(n);
      BlockCount(n);
      var i := BlocksIn(n.size, 4 * files.store.e);
      ghost var d, u := files.store.disk, files.store.Used();
      var b;
      ok, b, n' := files.EnsureBlock(n, i);
      GrownFolder(d, n, u, files.store.disk, n', files.store.Used(), files.store.e, i, ok, b);
      if !ok {
        return;
      }
      SameSize(d, n, u, files.store.disk, n', files.store.Used(), files.store.e);
      ghost var d1, u1, n1 := files.store.disk, files.store.Used(), n';
      n' := FillLast(n', i, b, name, inode, kind);
      KeepsChain(d, u, Owned(d, n.ptrs), d1, u1, Owned(d1, n1.ptrs), files.store.disk, files.store.Used(), Owned(files.store.disk, n'.ptrs));
    }

    /** Writes the block just mapped behind the directory and counts it. */
    method FillLast(n: FileNode, i: nat, b: nat, name: Name, inode: word, kind: byte) returns (n': FileNode)
      requires Ok(n) && name !in Names(n) && name != [] && |name| <= 255 && inode != 0
      requires i == BlocksIn(n.size, 4 * files.store.e) && b == MapBlock(files.store.disk, n.ptrs, files.store.e, i) != 0
      modifies files.store`disk
      ensures Ok(n') && files.store.Used() == old(files.store.Used())
      ensures Names(n') == old(Names(n))[name := DirRecords.Entry(inode, kind)]
      ensures Keeps(old(files.store.disk), files.store.Used(), Owned(old(files.store.disk), n.ptrs),
                    files.store.disk, files.store.Used(), Owned(files.store.disk, n'.ptrs))
    {
      hide NodeOk, Counted, TakenSet, MapBlock, Keeps, Owned, FolderBlocks, DirRecords.AsMap, Directory.All, Directory.Consistent, BlocksIn;
      files.NodeRooted(n);
      ghost var d, u := files.store.disk, files.store.Used();
      var block := DirRecords.PutRec(Zeros(4 * files.store.e), 0, DirRecords.Header(inode, 4 * files.store.e, |name|, kind), name);
      Directory.FreshBlock(Blocks(n), 4 * files.store.e, name, inode, kind);
      WholeBlocks(i + 1, 4 * files.store.e);
      n' := n.(size := (i + 1) * (4 * files.store.e));
      files.SizeOnly(n', n.size);
      LastBlock(d, n, n', files.store.e, i, b, u, block);
      OverwrittenNode(d, n', files.store.e, u, i, block);
      files.store.WriteBlock(b, block);
    }

    /** A new directory: one block with the two dots. */
    method Make(self: word, parent: word) returns (ok: bool, n: FileNode)
      requires files.store.Valid() && 66 <= files.store.e < 0x4000 && self != 0 && parent != 0
      modifies files.store`disk, files.store.items
      ensures files.store.Valid() && (ok <==> old(files.store.Room()) > 0)
      ensures ok ==> Ok(n) && Names(n) == Directory.Dots(self, parent)
      ensures ok ==> Keeps(old(files.store.disk), old(files.store.Used()), {},
                           files.store.disk, files.store.Used(), Owned(files.store.disk, n.ptrs))
      ensures !ok ==> files.store.disk == old(files.store.disk) && files.store.Used() == old(files.store.Used())
    {
      hide NodeOk, Counted, TakenSet, MapBlock, Keeps, Owned, FolderBlocks, DirRecords.AsMap, Directory.All, Directory.Consistent, Grew, MapsTo, BlocksIn;
      ghost var d, u := files.store.disk, files.store.Used();
      files.store.UsedOnDisk();
      EmptyIsFine(d, files.store.e, u);
      EmptyMaps(d, files.store.e, u);
      var b;
      ok, b, n := files.EnsureDirect(EMPTY, 0);
      if !ok {
        return;
      }
      ghost var d1, u1, n1 := files.store.disk, files.store.Used(), n;
      FirstBlock(d, u, d1, n1, u1, files.store.e);
      var block := DirRecords.PutRec(Zeros(4 * files.store.e), 0, DirRecords.Header(self, DirRecords.EntrySize(1), 1, Directory.DIRECTORY), Directory.DOT);
      block := DirRecords.PutRec(block, DirRecords.EntrySize(1),
                                 DirRecords.Header(parent, 4 * files.store.e - DirRecords.EntrySize(1), 2, Directory.DIRECTORY), Directory.DOTDOT);
      Directory.DotsBlock(4 * files.store.e, self, parent);
      WholeBlocks(1, 4 * files.store.e);
      n := n.(size := 4 * files.store.e);
      files.SizeOnly(n, n1.size);
      LastBlock(d1, n1, n, files.store.e, 0, b, u1, block);
      assert [] + [block] == [block];
      OverwrittenNode(d1, n, files.store.e, u1, 0, block);
      files.store.WriteBlock(b, block);
      KeepsChain(d, u, {}, d1, u1, Owned(d1, n1.ptrs), files.store.disk, files.store.Used(), Owned(files.store.disk, n.ptrs));
    }

    /** A directory is empty exactly when no name but the two dots is left in it. */
    method IsEmpty(n: FileNode) returns (empty: bool)
      requires Ok(n)
      ensures empty <==> Directory.NamesOnlyDots(Names(n))
    {
      hide NodeOk, Counted, TakenSet, MapBlock, FolderBlocks, DirRecords.AsMap, DirRecords.Records, Directory.All, Directory.Good, Directory.DotsOnly, Directory.NamesOnlyDots;
      files.NodeRooted(n);
      ghost var bs := Blocks(n);
      Directory.NoBlocks();
      Directory.NothingButDots();
      Directory.FineAll(bs, 4 * files.store.e);
      Directory.DotNames(Directory.All(bs));
      var count := BlocksIn(n.size, 4 * files.store.e);
      BlockCount(n);
      for k := 0 to count
        invariant Directory.DotsOnly(Directory.All(bs[..k]))
      {
        var b := files.BlockForIndex(n, k);
        BlockIs(n, k);
        GoodBlock(n, k);
        Directory.UnbrokenBlock(bs[k], 4 * files.store.e);
        Directory.RoomyBlock(bs[k], 4 * files.store.e);
        Directory.BlockDots(bs, k);
        if b == 0 {
          Directory.NoRecords();
          Directory.NothingButDots();
          continue;
        }
        var only := Directory.OnlyDots(files.store.disk[b]);
        if !only {
          return false;
        }
      }
      assert bs[..count] == bs;
      empty := true;
    }

    lemma KeepsItself(n: FileNode)
      requires files.Ok(n)
      ensures Keeps(files.store.disk, files.store.Used(), Owned(files.store.disk, n.ptrs),
                    files.store.disk, files.store.Used(), Owned(files.store.disk, n.ptrs))
    {
    }
  }

  lemma NamedThere(b: seq<byte>, pos: nat, name: Name)
    requires Directory.Names(b, pos, name) && |b| < 0x1_0000
    ensures pos + 8 <= |b| && DirRecords.HeaderAt(b, pos).size < 0x1_0000
  {
    hide DirRecords.SizeAt, DirRecords.Leads;
  }

  /** An empty inode maps nothing. */
  lemma EmptyMaps(d: Disk, e: nat, used: set<nat>)
    requires 0 < e && NodeOk(d, EMPTY, e, used)
    ensures MapBlock(d, EMPTY.ptrs, e, 0) == 0 && BlockNeed(d, EMPTY.ptrs, e, 0) == 1
  {
    DirectHome(e, 0);
  }

  lemma FirstBlock(d: Disk, used: set<nat>, d': Disk, n: FileNode, used': set<nat>, e: nat)
    requires 0 < e && Grew(d, EMPTY, used, d', n, used', e) && Owned(d, EMPTY.ptrs) == {} && |n.ptrs| == 15
    ensures n.size == 0 && BlocksIn(n.size, 4 * e) == 0 && FolderBlocks(d', n, e) == []
    ensures Keeps(d, used, {}, d', used', Owned(d', n.ptrs))
  {
    hide Owned, NodeOk;
    NoBytes(4 * e);
  }

  lemma NoBytes(size: nat)
    requires size > 0
    ensures BlocksIn(0, size) == 0
  {
    DivideOnce(0, size - 1, size, size - 1);
  }

  lemma EnteredSize(b: seq<byte>, pos: nat, n: seq<byte>, name: Name, inode: word, kind: byte)
    requires DirRecords.Sound(b, pos) && Directory.Written(b, pos, n, name, inode, kind)
    ensures |n| == |b|
  {
  }

  lemma SameSize(d: Disk, n: FileNode, used: set<nat>, d': Disk, n': FileNode, used': set<nat>, e: nat)
    requires Grew(d, n, used, d', n', used', e)
    ensures n'.size == n.size
  {
  }

  /** What growing means for the directory: nothing, as long as its size is what it was. */
  lemma GrownFolder(d: Disk, n: FileNode, used: set<nat>, d': Disk, n': FileNode, used': set<nat>, e: nat, i: nat, ok: bool, b: nat)
    requires NodeOk(d, n, e, used) && FolderOk(d, n, e) && Grew(d, n, used, d', n', used', e) && |n'.ptrs| == 15
    requires i == BlocksIn(n.size, 4 * e)
    requires i >= 12 + e ==> n' == n && d' == d
    requires i < 12 + e ==> MapsTo(d, n.ptrs, d', n'.ptrs, e, i, ok, b)
    ensures FolderBlocks(d', n', e) == FolderBlocks(d, n, e) && FolderOk(d', n', e)
    ensures Keeps(d, used, Owned(d, n.ptrs), d', used', Owned(d', n'.ptrs))
  {
    hide BlockAt, MapsTo, NodeOk, Directory.Consistent;
    forall j: nat | j < i
      ensures BlockAt(d', n'.ptrs, e, j) == BlockAt(d, n.ptrs, e, j)
    {
      FolderGrew(d, n, used, d', n', used', e, i, ok, b, j);
    }
  }

  /** The new last block written. */
  lemma LastBlock(d: Disk, n: FileNode, n': FileNode, e: nat, i: nat, b: nat, used: set<nat>, block: Block)
    requires NodeOk(d, n, e, used) && |n.ptrs| == 15 && 0 < e && i == BlocksIn(n.size, 4 * e)
    requires n'.ptrs == n.ptrs && BlocksIn(n'.size, 4 * e) == i + 1 && |block| == 4 * e
    requires b == MapBlock(d, n.ptrs, e, i) != 0
    ensures b < |d| && FolderBlocks(d[b := block], n', e) == FolderBlocks(d, n, e) + [block]
  {
    hide BlockAt, MapBlock, BlocksIn, Rooted;
    BlockWritten(d, n.ptrs, e, used, i, block, i);
    forall j: nat
      ensures BlockAt(d[b := block], n.ptrs, e, j) == if j == i then block else BlockAt(d, n.ptrs, e, j)
    {
      BlockWritten(d, n.ptrs, e, used, i, block, j);
    }
    OneMoreBlock(d, n, d[b := block], n', e, i, block);
  }

  lemma OneMoreBlock(d: Disk, n: FileNode, d': Disk, n': FileNode, e: nat, i: nat, block: Block)
    requires |n.ptrs| == 15 && n'.ptrs == n.ptrs && 0 < e && i == BlocksIn(n.size, 4 * e) && BlocksIn(n'.size, 4 * e) == i + 1
    requires forall j: nat :: BlockAt(d', n.ptrs, e, j) == if j == i then block else BlockAt(d, n.ptrs, e, j)
    ensures FolderBlocks(d', n', e) == FolderBlocks(d, n, e) + [block]
  {
    hide BlockAt, BlocksIn;
  }

  lemma WholeBlocks(k: nat, size: nat)
    requires size > 0
    ensures BlocksIn(k * size, size) == k
  {
    DivideOnce(k, size - 1, size, k * size + size - 1);
  }
}
