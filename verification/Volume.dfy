/**
 * A mounted volume with all its files and directories.  Whatever one of them does, the others keep
 * their blocks and what they hold, and every call means what it means on tapes and listings.
 */
module Volume {
  import opened Bytes
  import opened BlockTree
  import opened TreeSteps
  import opened ItemAllocator
  import opened BlockStore
  import opened FileTree
  import opened FileSteps
  import opened FileOps
  import opened Folders
  import opened VolumeMeaning
  import DirRecords
  import Directory

  // ----- what an inode stands for

  ghost function StoredBytes(d: Disk, ptrs: seq<word>, e: nat): Tape
    requires |ptrs| == 15 && e > 0
  {
    imap x: nat | true :: RawByte(d, ptrs, e, x)
  }

  ghost function ThingOf(d: Disk, n: FileNode, e: nat, folder: bool): Thing
    requires |n.ptrs| == 15 && e > 0
  {
    if folder then Folder(ListingOf(d, n, e)) else Plain(n.size, StoredBytes(d, n.ptrs, e))
  }

  lemma SameThing(d: Disk, n: FileNode, d': Disk, n': FileNode, e: nat, folder: bool)
    requires |n.ptrs| == 15 && |n'.ptrs| == 15 && e > 0 && n'.size == n.size
    requires SameBytes(d, n.ptrs, d', n'.ptrs, e) && SameBlocks(d, n.ptrs, d', n'.ptrs, e)
    ensures ThingOf(d', n', e, folder) == ThingOf(d, n, e, folder) && (FolderOk(d, n, e) ==> FolderOk(d', n', e))
  {
    hide RawByte, Directory.Consistent, SameBlocks;
    SameFolder(d, n, d', n', e);
  }

  // ----- one file changes, the others do not

  lemma OtherBlock(d: Disk, d': Disk, ptrs: seq<word>, e: nat, used: set<nat>, i: nat)
    requires Rooted(d, ptrs, e, used) && forall b :: b in Owned(d, ptrs) ==> Read(d', b) == Read(d, b)
    ensures BlockAt(d', ptrs, e, i) == BlockAt(d, ptrs, e, i)
  {
    hide Load, Lookup, MapBlock, Read;
    TablesOfAllAreBlocks(Forest(d, ptrs));
    ForestFrame(d, d', ptrs);
    MapFrame(d, d', ptrs, e, i);
    MapOwned(d, ptrs, e, used, i);
  }

  lemma OtherNode(d: Disk, used: set<nat>, own: set<nat>, d': Disk, used': set<nat>, own': set<nat>, m: FileNode, e: nat)
    requires Keeps(d, used, own, d', used', own') && NodeOk(d, m, e, used) && Owned(d, m.ptrs) !! own
    requires Geometry(d', e) && forall b :: b in used' ==> 0 <= b < |d'|
    ensures NodeOk(d', m, e, used') && Owned(d', m.ptrs) == Owned(d, m.ptrs) && Owned(d', m.ptrs) !! own'
    ensures SameBytes(d, m.ptrs, d', m.ptrs, e) && SameBlocks(d, m.ptrs, d', m.ptrs, e)
  {
    hide Load, Read, Distinct, RawByte, BlockAt;
    TablesOfAllAreBlocks(Forest(d, m.ptrs));
    forall b | b in Owned(d, m.ptrs)
      ensures Read(d', b) == Read(d, b) && b in used' - own'
    {
      assert b in used - own;
    }
    ForestFrame(d, d', m.ptrs);
    if m.ptrs[12] != 0 {
      TableIsOwned(d, m, e, used);
    }
    forall x: nat
      ensures RawByte(d', m.ptrs, e, x) == RawByte(d, m.ptrs, e, x)
    {
      BytesFrame(d, d', m.ptrs, e, used, x);
    }
    forall i: nat
      ensures BlockAt(d', m.ptrs, e, i) == BlockAt(d, m.ptrs, e, i)
    {
      OtherBlock(d, d', m.ptrs, e, used, i);
    }
  }

  lemma TableIsOwned(d: Disk, m: FileNode, e: nat, used: set<nat>)
    requires NodeOk(d, m, e, used) && m.ptrs[12] != 0
    ensures m.ptrs[12] in Owned(d, m.ptrs)
  {
    hide Distinct;
    OwnedTree(d, m.ptrs, e, used, 12);
    LoadOne(d, m.ptrs[12]);
    TableOwnsRoot(m.ptrs[12], Table(Read(d, m.ptrs[12])));
  }

  /** Distinct inodes own distinct blocks. */
  ghost predicate FilesApart(d: Disk, nodes: map<nat, FileNode>) {
    forall i, j :: i in nodes && j in nodes && i != j ==> Owned(d, nodes[i].ptrs) !! Owned(d, nodes[j].ptrs)
  }

  ghost predicate AllOk(d: Disk, nodes: map<nat, FileNode>, e: nat, used: set<nat>) {
    forall i :: i in nodes ==> NodeOk(d, nodes[i], e, used)
  }

  ghost predicate FoldersOk(d: Disk, nodes: map<nat, FileNode>, folders: set<nat>, e: nat) {
    folders <= nodes.Keys && forall i :: i in folders ==> FolderOk(d, nodes[i], e)
  }

  ghost predicate Sizes(nodes: map<nat, FileNode>, e: nat) {
    forall i :: i in nodes ==> |nodes[i].ptrs| == 15 && e > 0
  }

  /** Every inode is consistent, no block belongs to two, and the directories hold records. */
  ghost predicate VolumeOk(d: Disk, nodes: map<nat, FileNode>, folders: set<nat>, e: nat, used: set<nat>) {
    Sizes(nodes, e) && AllOk(d, nodes, e, used) && FilesApart(d, nodes) && FoldersOk(d, nodes, folders, e)
  }

  lemma AllSized(d: Disk, nodes: map<nat, FileNode>, e: nat, used: set<nat>)
    requires AllOk(d, nodes, e, used)
    ensures Sizes(nodes, e)
  {
    hide NodeOk;
    forall i | i in nodes
      ensures |nodes[i].ptrs| == 15 && e > 0
    {
      NodeSize(d, nodes[i], e, used);
    }
  }

  ghost function AllThings(d: Disk, nodes: map<nat, FileNode>, folders: set<nat>, e: nat): (things: map<nat, Thing>)
    requires Sizes(nodes, e)
    ensures things.Keys == nodes.Keys
  {
    map i | i in nodes :: ThingOf(d, nodes[i], e, i in folders)
  }

  /** The inodes other than `ino` when the blocks of `own` become those of `own'`. */
  ghost predicate OthersKept(d: Disk, d': Disk, nodes: map<nat, FileNode>, folders: set<nat>, e: nat, used': set<nat>, ino: nat, own': set<nat>)
    requires Sizes(nodes, e)
  {
    forall i :: i in nodes && i != ino ==>
      && NodeOk(d', nodes[i], e, used') && Owned(d', nodes[i].ptrs) == Owned(d, nodes[i].ptrs) && Owned(d', nodes[i].ptrs) !! own'
      && ThingOf(d', nodes[i], e, i in folders) == ThingOf(d, nodes[i], e, i in folders)
      && (i in folders ==> FolderOk(d', nodes[i], e))
  }

  lemma OthersStay(d: Disk, used: set<nat>, nodes: map<nat, FileNode>, folders: set<nat>, e: nat, ino: nat, own: set<nat>,
                   d': Disk, used': set<nat>, own': set<nat>)
    requires VolumeOk(d, nodes, folders, e, used) && Geometry(d', e) && (forall b :: b in used' ==> 0 <= b < |d'|)
    requires Keeps(d, used, own, d', used', own') && forall i :: i in nodes && i != ino ==> Owned(d, nodes[i].ptrs) !! own
    ensures OthersKept(d, d', nodes, folders, e, used', ino, own')
  {
    hide NodeOk, Keeps, SameBytes, SameBlocks, Owned, FolderOk, ThingOf, FilesApart, Geometry;
    forall i | i in nodes && i != ino
      ensures NodeOk(d', nodes[i], e, used') && Owned(d', nodes[i].ptrs) == Owned(d, nodes[i].ptrs) && Owned(d', nodes[i].ptrs) !! own'
      ensures ThingOf(d', nodes[i], e, i in folders) == ThingOf(d, nodes[i], e, i in folders)
      ensures i in folders ==> FolderOk(d', nodes[i], e)
    {
      OtherNode(d, used, own, d', used', own', nodes[i], e);
      SameThing(d, nodes[i], d', nodes[i], e, i in folders);
    }
  }

  lemma NodeDisk(d: Disk, n: FileNode, e: nat, used: set<nat>)
    requires NodeOk(d, n, e, used)
    ensures Geometry(d, e) && forall b :: b in used ==> 0 <= b < |d|
  {
  }

  /** One inode changes, or a new one comes. */
  lemma OneChanged(d: Disk, used: set<nat>, nodes: map<nat, FileNode>, folders: set<nat>, e: nat, ino: nat,
                   d': Disk, used': set<nat>, n: FileNode, folders': set<nat>)
    requires VolumeOk(d, nodes, folders, e, used) && NodeOk(d', n, e, used') && folders' - {ino} == folders - {ino}
    requires Keeps(d, used, if ino in nodes then Owned(d, nodes[ino].ptrs) else {}, d', used', Owned(d', n.ptrs))
    requires ino in folders' ==> FolderOk(d', n, e)
    ensures |n.ptrs| == 15 && e > 0 && VolumeOk(d', nodes[ino := n], folders', e, used')
    ensures AllThings(d', nodes[ino := n], folders', e) == AllThings(d, nodes, folders, e)[ino := ThingOf(d', n, e, ino in folders')]
  {
    hide NodeOk, Keeps, Owned, FolderOk, ThingOf, Geometry, OthersKept;
    NodeDisk(d', n, e, used');
    NodeSize(d', n, e, used');
    OthersStay(d, used, nodes, folders, e, ino, if ino in nodes then Owned(d, nodes[ino].ptrs) else {}, d', used', Owned(d', n.ptrs));
    Together(d, used, nodes, folders, e, ino, d', used', n, folders');
  }

  lemma Together(d: Disk, used: set<nat>, nodes: map<nat, FileNode>, folders: set<nat>, e: nat, ino: nat,
                 d': Disk, used': set<nat>, n: FileNode, folders': set<nat>)
    requires VolumeOk(d, nodes, folders, e, used) && NodeOk(d', n, e, used') && folders' - {ino} == folders - {ino}
    requires |n.ptrs| == 15 && e > 0 && OthersKept(d, d', nodes, folders, e, used', ino, Owned(d', n.ptrs))
    requires ino in folders' ==> FolderOk(d', n, e)
    ensures VolumeOk(d', nodes[ino := n], folders', e, used')
    ensures AllThings(d', nodes[ino := n], folders', e) == AllThings(d, nodes, folders, e)[ino := ThingOf(d', n, e, ino in folders')]
  {
    hide NodeOk, Owned, FolderOk, ThingOf;
    assert forall i :: i != ino ==> (i in folders' <==> i in folders' - {ino}) && (i in folders <==> i in folders - {ino});
  }

  /** An inode gives its blocks up and leaves the volume. */
  lemma OneGone(d: Disk, used: set<nat>, nodes: map<nat, FileNode>, folders: set<nat>, e: nat, ino: nat, used': set<nat>)
    requires VolumeOk(d, nodes, folders, e, used) && ino in nodes && used' == used - Owned(d, nodes[ino].ptrs)
    ensures VolumeOk(d, nodes - {ino}, folders - {ino}, e, used')
    ensures AllThings(d, nodes - {ino}, folders - {ino}, e) == AllThings(d, nodes, folders, e) - {ino}
  {
    hide NodeOk, Owned, FolderOk, ThingOf;
    forall i | i in nodes && i != ino
      ensures NodeOk(d, nodes[i], e, used')
    {
      LessUsed(d, nodes[i], e, used, Owned(d, nodes[ino].ptrs));
    }
  }

  lemma LessUsed(d: Disk, n: FileNode, e: nat, used: set<nat>, gone: set<nat>)
    requires NodeOk(d, n, e, used) && Owned(d, n.ptrs) !! gone
    ensures NodeOk(d, n, e, used - gone)
  {
    hide Distinct, Whole;
  }

  // ----- what single changes mean for the tape

  lemma WrittenThing(d: Disk, n: FileNode, d': Disk, n': FileNode, e: nat, offset: nat, data: seq<byte>, done: nat, a: Answer)
    requires |n.ptrs| == 15 && |n'.ptrs| == 15 && e > 0 && data != [] && done <= |data|
    requires Patched(d, n.ptrs, d', n'.ptrs, e, offset, data, done)
    requires a == (if done == |data| then Done else NoRoom(done))
    requires n'.size == if done == |data| then Max(n.size, offset + |data|) else n.size
    ensures ThingOf(d', n', e, false) == Rewritten(ThingOf(d, n, e, false), offset, data, a)
  {
    hide RawByte;
    assert data[..|data|] == data;
    assert StoredBytes(d', n'.ptrs, e) == Overlay(StoredBytes(d, n.ptrs, e), offset, data[..done]);
  }

  lemma ResizedThing(d: Disk, n: FileNode, d': Disk, n': FileNode, e: nat, len: nat)
    requires |n.ptrs| == 15 && |n'.ptrs| == 15 && e > 0 && n'.size == len
    requires len < n.size ==> CutAt(d, n.ptrs, d', n'.ptrs, e, len)
    requires len >= n.size ==> d' == d && n'.ptrs == n.ptrs
    ensures ThingOf(d', n', e, false) == Resized(ThingOf(d, n, e, false), len)
  {
    hide RawByte;
    if len < n.size {
      assert StoredBytes(d', n'.ptrs, e) == CutFrom(StoredBytes(d, n.ptrs, e), len);
    }
  }

  lemma EmptyThing(d: Disk, e: nat, used: set<nat>)
    requires e > 0 && Geometry(d, e) && forall b :: b in used ==> 0 <= b < |d|
    ensures NodeOk(d, EMPTY, e, used) && Owned(d, EMPTY.ptrs) == {}
    ensures ThingOf(d, EMPTY, e, false) == Plain(0, Blank())
  {
    hide RawByte, Owned, NodeOk;
    EmptyIsFine(d, e, used);
    assert StoredBytes(d, EMPTY.ptrs, e) == Blank() by {
      assert EMPTY.size == 0;
    }
  }

  /** What shows of a file is its contents. */
  lemma ContentShown(d: Disk, n: FileNode, e: nat)
    requires |n.ptrs| == 15 && e > 0
    ensures VolumeMeaning.Shown(ThingOf(d, n, e, false)) == Content(d, n, e)
    ensures Tidy(ThingOf(d, n, e, false)) <==> ZeroPastEnd(d, n, e)
  {
    hide RawByte;
    var t := ThingOf(d, n, e, false);
    assert forall x: nat :: At(t.stored, x) == RawByte(d, n.ptrs, e, x);
    assert VolumeMeaning.Shown(t) == Content(d, n, e);
  }

  /** A file shows what its blocks hold, whatever table it has cached. */
  lemma CacheUnseen(d: Disk, n: FileNode, n': FileNode, e: nat)
    requires |n.ptrs| == 15 && e > 0 && n' == n.(cached := n'.cached)
    ensures ThingOf(d, n', e, false) == ThingOf(d, n, e, false) && ThingOf(d, n, e, false).Plain? && ThingOf(d, n, e, false).size == n.size
    ensures forall x: nat :: x < n.size ==> VolumeMeaning.Shown(ThingOf(d, n, e, false))[x] == RawByte(d, n.ptrs, e, x)
  {
    hide RawByte;
  }

  // ----- runs

  /** The state of a volume between two calls. */
  datatype Snapshot = Snapshot(disk: Disk, used: set<nat>, room: nat, nodes: map<nat, FileNode>, folders: set<nat>)

  ghost predicate OkAt(e: nat, m: Snapshot) {
    VolumeOk(m.disk, m.nodes, m.folders, e, m.used)
  }

  ghost function ThingsAt(e: nat, m: Snapshot): map<nat, Thing>
    requires OkAt(e, m)
  {
    AllThings(m.disk, m.nodes, m.folders, e)
  }

  /** The name is in the directory. */
  ghost predicate Has(e: nat, m: Snapshot, dir: nat, name: Name)
    requires OkAt(e, m)
  {
    dir in m.folders && name in ListingOf(m.disk, m.nodes[dir], e)
  }

  /** Directories need blocks that two-byte record sizes can describe, and that hold the longest name. */
  predicate GoodForFolders(e: nat) {
    66 <= e < 0x4000
  }

  /** A write to a plain file succeeds exactly when there is room, and otherwise stops at the first block it cannot get. */
  ghost predicate WriteReply(e: nat, m: Snapshot, op: Op, a: Answer)
    requires OkAt(e, m) && op.Write?
  {
    if op.ino !in m.nodes || op.ino in m.folders then a.Refused?
    else if RoomFor(m.disk, m.nodes[op.ino].ptrs, e, m.room, op.offset, op.data) then a.Done?
    else a.NoRoom? && a.stored < |op.data| && StopsAt(m.disk, m.nodes[op.ino].ptrs, e, m.room, op.offset, a.stored)
  }

  ghost predicate EnterReply(e: nat, m: Snapshot, op: Op, a: Answer)
    requires OkAt(e, m) && op.Enter?
  {
    a == if op.ino !in m.folders || Has(e, m, op.ino, op.name) || op.name == [] || |op.name| > 255 || op.target == 0 then Refused
         else if PlaceFor(m.disk, m.nodes[op.ino], e, m.room, op.name) then Done else NoRoom(0)
  }

  /** The answer to a call, exactly. */
  ghost predicate Replies(e: nat, m: Snapshot, op: Op, a: Answer)
    requires OkAt(e, m)
  {
    match op
    case Create(ino) => a == if ino in m.nodes then Refused else Done
    case MakeFolder(self, parent) =>
      a == if self as int in m.nodes || self == 0 || parent == 0 || !GoodForFolders(e) then Refused else if m.room > 0 then Done else NoRoom(0)
    case Write(_, _, _) => WriteReply(e, m, op, a)
    case SetSize(ino, _) => a == if ino in m.nodes && ino !in m.folders then Done else Refused
    case Reclaim(ino) => a == if ino in m.nodes then Done else Refused
    case Enter(_, _, _, _) => EnterReply(e, m, op, a)
    case Replace(ino, name, target, _) => a == if target != 0 && Has(e, m, ino, name) then Done else Refused
    case Remove(ino, name) => a == if Has(e, m, ino, name) then Done else Refused
  }

  /** One call takes the volume from `m` to `n`. */
  ghost predicate Did(e: nat, m: Snapshot, op: Op, a: Answer, n: Snapshot) {
    OkAt(e, m) && OkAt(e, n) && ThingsAt(e, n) == Perform(ThingsAt(e, m), op, a) && Replies(e, m, op, a)
  }

  // ----- what calls mean, inode by inode and byte by byte

  /** A name of a directory. */
  ghost predicate Listed(things: map<nat, Thing>, dir: nat, name: Name) {
    dir in things && things[dir].Folder? && name in things[dir].names
  }

  lemma ListedHas(e: nat, m: Snapshot, dir: nat, name: Name)
    requires OkAt(e, m)
    ensures Has(e, m, dir, name) <==> Listed(ThingsAt(e, m), dir, name)
    ensures ThingsAt(e, m).Keys == m.nodes.Keys && m.folders <= m.nodes.Keys
    ensures forall i :: i in m.nodes ==> (ThingsAt(e, m)[i].Folder? <==> i in m.folders)
  {
    hide ListingOf, StoredBytes, NodeOk, FilesApart, FolderOk;
  }

  /** A call changes no inode but the one it names. */
  lemma OtherInodes(e: nat, m: Snapshot, op: Op, a: Answer, n: Snapshot, i: nat)
    requires Did(e, m, op, a, n) && i != if op.MakeFolder? then op.self as int else op.ino
    ensures i in ThingsAt(e, m) <==> i in ThingsAt(e, n)
    ensures i in ThingsAt(e, m) ==> ThingsAt(e, n)[i] == ThingsAt(e, m)[i]
  {
    hide OkAt, ThingsAt, Replies, Rewritten, Resized, Directory.Dots, Blank;
  }

  /** A file is made exactly where no inode is; it has no bytes and stores none. */
  lemma CreateMeans(e: nat, m: Snapshot, ino: nat, a: Answer, n: Snapshot)
    requires Did(e, m, Create(ino), a, n)
    ensures a == if ino in ThingsAt(e, m) then Refused else Done
    ensures a.Done? ==> ino in ThingsAt(e, n) && var t := ThingsAt(e, n)[ino]; t.Plain? && t.size == 0 && forall x: nat :: At(t.stored, x) == 0
  {
    hide OkAt, ThingsAt;
    ListedHas(e, m, ino, []);
  }

  /** A directory is made exactly where no inode is and a block is left; it has its two dots. */
  lemma MakeFolderMeans(e: nat, m: Snapshot, self: word, parent: word, a: Answer, n: Snapshot)
    requires Did(e, m, MakeFolder(self, parent), a, n)
    ensures a.Refused? <==> self as int in ThingsAt(e, m) || self == 0 || parent == 0 || e < 66 || e >= 0x4000
    ensures !a.Refused? ==> (a.Done? <==> m.room > 0)
    ensures a.Done? ==> self as int in ThingsAt(e, n)
    ensures a.Done? ==> ThingsAt(e, n)[self as int].Folder?
    ensures a.Done? ==> ThingsAt(e, n)[self as int].names == map[[46] := DirRecords.Entry(self, 2), [46, 46] := DirRecords.Entry(parent, 2)]
  {
    hide OkAt, ThingsAt;
    ListedHas(e, m, self as int, []);
  }

  /** A write stores its bytes, or a first part of them, at their place and nowhere else. */
  lemma WriteMeans(e: nat, m: Snapshot, ino: nat, offset: nat, data: seq<byte>, a: Answer, n: Snapshot, x: nat)
    requires Did(e, m, Write(ino, offset, data), a, n)
    ensures a.Refused? <==> ino !in ThingsAt(e, m) || ThingsAt(e, m)[ino].Folder?
    ensures !a.Refused? ==> ino in ThingsAt(e, n) && ThingsAt(e, n)[ino].Plain? && (a.NoRoom? ==> a.stored < |data|)
    ensures !a.Refused? ==>
              var t, u, k := ThingsAt(e, m)[ino], ThingsAt(e, n)[ino], if a.Done? then |data| else a.stored;
              && At(u.stored, x) == (if offset <= x < offset + k then data[x - offset] else At(t.stored, x))
              && u.size == if a.Done? && data != [] && offset + |data| > t.size then offset + |data| else t.size
  {
    hide OkAt, ThingsAt, RoomFor, StopsAt;
    ListedHas(e, m, ino, []);
  }

  /** Enough room for a write: the blocks it touches are within reach, and so many are free, with one for a table. */
  lemma RoomEnough(d: Disk, ptrs: seq<word>, e: nat, room: nat, offset: nat, data: seq<byte>)
    requires |ptrs| == 15 && e > 0 && data != []
    requires BlockOf(e, offset + |data| - 1) < 12 + e && room >= BlockOf(e, offset + |data| - 1) - BlockOf(e, offset) + 2
    ensures RoomFor(d, ptrs, e, room, offset, data)
  {
    hide BlockOf, MapBlock;
    GapsBound(d, ptrs, e, BlockOf(e, offset), BlockOf(e, offset + |data| - 1) + 1);
  }

  lemma {:induction false} GapsBound(d: Disk, ptrs: seq<word>, e: nat, lo: nat, hi: nat)
    requires |ptrs| == 15 && e > 0
    ensures Gaps(d, ptrs, e, lo, hi) <= if lo < hi then hi - lo else 0
    decreases hi
  {
    hide MapBlock;
    if lo < hi { GapsBound(d, ptrs, e, lo, hi - 1); }
  }

  /** Setting the size keeps the bytes below it, and forgets those it cuts off. */
  lemma SetSizeMeans(e: nat, m: Snapshot, ino: nat, len: nat, a: Answer, n: Snapshot, x: nat)
    requires Did(e, m, SetSize(ino, len), a, n)
    ensures a == if ino in ThingsAt(e, m) && ThingsAt(e, m)[ino].Plain? then Done else Refused
    ensures a.Done? ==>
              && ino in ThingsAt(e, n) && ThingsAt(e, n)[ino].Plain? && ThingsAt(e, n)[ino].size == len
              && var t, u := ThingsAt(e, m)[ino], ThingsAt(e, n)[ino];
                 At(u.stored, x) == if x < len || len >= t.size then At(t.stored, x) else 0
  {
    hide OkAt, ThingsAt;
    ListedHas(e, m, ino, []);
  }

  lemma ReclaimMeans(e: nat, m: Snapshot, ino: nat, a: Answer, n: Snapshot)
    requires Did(e, m, Reclaim(ino), a, n)
    ensures (a == if ino in ThingsAt(e, m) then Done else Refused) && ino !in ThingsAt(e, n)
  {
    hide OkAt, ThingsAt;
    ListedHas(e, m, ino, []);
  }

  /** Names are entered, changed and removed as in a map. */
  lemma EnterMeans(e: nat, m: Snapshot, dir: nat, name: Name, target: word, kind: byte, a: Answer, n: Snapshot)
    requires Did(e, m, Enter(dir, name, target, kind), a, n)
    ensures a.Refused? <==> dir !in m.folders || Listed(ThingsAt(e, m), dir, name) || name == [] || |name| > 255 || target == 0
    ensures a.Done? ==> Entered(e, m, n, dir, name, target, kind)
  {
    hide OkAt, ThingsAt, PlaceFor, Has, Listed;
    ListedHas(e, m, dir, name);
  }

  lemma ReplaceMeans(e: nat, m: Snapshot, dir: nat, name: Name, target: word, kind: byte, a: Answer, n: Snapshot)
    requires Did(e, m, Replace(dir, name, target, kind), a, n)
    ensures a == if target != 0 && Listed(ThingsAt(e, m), dir, name) then Done else Refused
    ensures a.Done? ==> Entered(e, m, n, dir, name, target, kind)
  {
    hide OkAt, ThingsAt, Has;
    ListedHas(e, m, dir, name);
  }

  lemma RemoveMeans(e: nat, m: Snapshot, dir: nat, name: Name, a: Answer, n: Snapshot)
    requires Did(e, m, Remove(dir, name), a, n)
    ensures a == if Listed(ThingsAt(e, m), dir, name) then Done else Refused
    ensures a.Done? ==> dir in ThingsAt(e, n) && ThingsAt(e, n)[dir].Folder? && ThingsAt(e, n)[dir].names == ThingsAt(e, m)[dir].names - {name}
  {
    hide OkAt, ThingsAt, Has;
    ListedHas(e, m, dir, name);
  }

  ghost predicate Entered(e: nat, m: Snapshot, n: Snapshot, dir: nat, name: Name, target: word, kind: byte)
    requires OkAt(e, m) && OkAt(e, n)
  {
    && dir in ThingsAt(e, m) && ThingsAt(e, m)[dir].Folder? && dir in ThingsAt(e, n) && ThingsAt(e, n)[dir].Folder?
    && ThingsAt(e, n)[dir].names == ThingsAt(e, m)[dir].names[name := DirRecords.Entry(target, kind)]
  }

  class Mount {
    const files: Files
    const names: Catalog
    /** The inodes held in memory, by number, and which of them are directories. */
    var nodes: map<nat, FileNode>
    var folders: set<nat>

    ghost predicate Valid()
      reads this, files.store, files.store.items
    {
      && names.files == files && files.store.Valid()
      && VolumeOk(files.store.disk, nodes, folders, files.store.e, files.store.Used())
    }

    ghost function Now(): (m: Snapshot)
      requires Valid()
      reads this, files.store, files.store.items
      ensures OkAt(files.store.e, m)
    {
      Snapshot(files.store.disk, files.store.Used(), files.store.Room(), nodes, folders)
    }

    /** What every inode stands for. */
    ghost function Things(): (things: map<nat, Thing>)
      requires Valid()
      reads this, files.store, files.store.items
      ensures things.Keys == nodes.Keys
    {
      AllThings(files.store.disk, nodes, folders, files.store.e)
    }

    constructor (files: Files, nodes: map<nat, FileNode>, folders: set<nat>)
      requires files.store.Valid() && VolumeOk(files.store.disk, nodes, folders, files.store.e, files.store.Used())
      ensures Valid() && this.files == files && this.nodes == nodes && this.folders == folders && fresh(names)
    {
      this.files, this.nodes, this.folders := files, nodes, folders;
      names := new Catalog(files);
    }

    lemma NodeIs(ino: nat)
      requires Valid() && ino in nodes
      ensures files.Ok(nodes[ino]) && |nodes[ino].ptrs| == 15 && files.store.e > 0
      ensures ino in folders ==> names.Ok(nodes[ino])
    {
      hide NodeOk, FilesApart, FolderOk;
    }

    lemma KeepsNothing(ino: nat)
      requires Valid() && ino in nodes
      ensures Keeps(files.store.disk, files.store.Used(), Owned(files.store.disk, nodes[ino].ptrs),
                    files.store.disk, files.store.Used(), Owned(files.store.disk, nodes[ino].ptrs))
    {
      assert NodeOk(files.store.disk, nodes[ino], files.store.e, files.store.Used());
    }

    /** Reads from a file: the bytes from `offset` on, as many as asked for or as there are before the end. */
    method ReadFile(ino: nat, offset: nat, len: nat) returns (data: seq<byte>)
      requires Valid() && ino in nodes && ino !in folders
      modifies this`nodes
      ensures Valid() && Things() == old(Things())
      ensures old(Things())[ino].Plain?
      ensures var size := old(Things())[ino].size;
              |data| == if offset >= size then 0 else if len < size - offset then len else size - offset
      ensures forall k :: 0 <= k < |data| ==> data[k] == VolumeMeaning.Shown(old(Things())[ino])[offset + k]
    {
      hide NodeOk, VolumeOk, Keeps, Owned, RawByte, FolderOk, StoredBytes, Content, ThingOf, VolumeMeaning.Shown, OkAt;
      NodeIs(ino);
      KeepsNothing(ino);
      ThingAt(files.store.e, Now(), ino);
      ghost var n0, d, e := nodes[ino], files.store.disk, files.store.e;
      var n;
      data, n := files.ReadData(nodes[ino], offset, len);
      CacheUnseen(d, n0, n, e);
      OneChanged(d, files.store.Used(), nodes, folders, e, ino, d, files.store.Used(), n, folders);
      nodes := nodes[ino := n];
      assert Things() == old(Things());
    }

    /** Writes to a file, as far as there is room. */
    method WriteFile(ino: nat, offset: nat, data: seq<byte>) returns (a: Answer)
      requires Valid()
      modifies this`nodes, files.store`disk, files.store.items
      ensures Valid() && Did(files.store.e, old(Now()), Write(ino, offset, data), a, Now())
    {
      hide NodeOk, VolumeOk, Keeps, Owned, RawByte, Patched, BlockOf, FolderOk, RoomFor, StopsAt, ThingOf, Rewritten, Files.Full, Did, Perform, AllThings;
      ghost var m, e := Now(), files.store.e;
      if ino !in nodes || ino in folders {
        WriteRefused(e, m, ino, offset, data);
        return Refused;
      }
      NodeIs(ino);
      ghost var d, u, n0 := files.store.disk, files.store.Used(), nodes[ino];
      if data == [] {
        NoWrite(d, n0, e, files.store.Room(), offset);
        SameAgain(Things(), ino);
        ThingAt(e, m, ino);
        WriteDone(e, m, m, ino, offset, data, Done, n0);
        return Done;
      }
      var ok, n, done := files.WriteData(nodes[ino], offset, data);
      a := if ok then Done else NoRoom(done);
      OneChanged(d, u, nodes, folders, e, ino, files.store.disk, files.store.Used(), n, folders);
      WrittenThing(d, n0, files.store.disk, n, e, offset, data, done, a);
      nodes := nodes[ino := n];
      WriteDone(e, m, Now(), ino, offset, data, a, n);
    }

    /** What was written is what is read back, and every other byte reads as before. */
    method WriteThenRead(ino: nat, at: nat, data: seq<byte>, offset: nat, len: nat) returns (a: Answer, back: seq<byte>)
      requires Valid() && ino in nodes && ino !in folders && data != []
      modifies this`nodes, files.store`disk, files.store.items
      ensures Valid() && ino in old(Things()) && old(Things())[ino].Plain? && !a.Refused?
      ensures a.Done? ==> var was, end := old(Things())[ino].size, at + |data|;
                          var size := if was < end then end else was;
                          |back| == if offset >= size then 0 else if len < size - offset then len else size - offset
      ensures a.Done? ==> forall k :: 0 <= k < |back| ==>
                back[k] == if at <= offset + k < at + |data| then data[offset + k - at] else At(old(Things())[ino].stored, offset + k)
      ensures a.Done? && at == offset && |data| <= len ==> data <= back
    {
      hide NodeOk, VolumeOk, FilesApart, FolderOk, ThingOf, RoomFor, StopsAt, Did, Perform, AllThings, Rewritten;
      ghost var m, e := Now(), files.store.e;
      ThingAt(e, m, ino);
      ghost var t := Things()[ino];
      a := WriteFile(ino, at, data);
      back := [];
      WroteAll(e, m, Now(), ino, at, data, a);
      if a.Done? {
        WrittenByte(t, at, data, 0);
        back := ReadFile(ino, offset, len);
        forall x: nat
          ensures At(Rewritten(t, at, data, Done).stored, x) == if at <= x < at + |data| then data[x - at] else At(t.stored, x)
        {
          WrittenByte(t, at, data, x);
        }
      }
    }

    /** Sets the size of a file. */
    method TruncateFile(ino: nat, len: nat) returns (a: Answer)
      requires Valid()
      modifies this`nodes, files.store`disk, files.store.items
      ensures Valid() && Did(files.store.e, old(Now()), SetSize(ino, len), a, Now())
    {
      hide NodeOk, VolumeOk, Keeps, Owned, RawByte, FolderOk, CutAt, MapBlock, ThingOf, Resized, Did, Perform, AllThings;
      ghost var m, e := Now(), files.store.e;
      if ino !in nodes || ino in folders {
        NotDone(e, m, SetSize(ino, len), Refused, m);
        return Refused;
      }
      NodeIs(ino);
      ghost var d, u, n0 := files.store.disk, files.store.Used(), nodes[ino];
      var n := files.Truncate(nodes[ino], len);
      OneChanged(d, u, nodes, folders, e, ino, files.store.disk, files.store.Used(), n, folders);
      ResizedThing(d, n0, files.store.disk, n, e, len);
      nodes := nodes[ino := n];
      ResizeDone(e, m, Now(), ino, len, n);
      a := Done;
    }

    /** A new inode without blocks. */
    method AddFile(ino: nat) returns (a: Answer)
      requires Valid()
      modifies this`nodes
      ensures Valid() && Did(files.store.e, old(Now()), Create(ino), a, Now())
    {
      hide NodeOk, VolumeOk, Owned, FolderOk, ThingOf, Blank;
      if ino in nodes {
        return Refused;
      }
      ghost var d, u, e := files.store.disk, files.store.Used(), files.store.e;
      files.store.UsedOnDisk();
      EmptyThing(d, e, u);
      NotAFolder(d, nodes, folders, e, u, ino);
      OneChanged(d, u, nodes, folders, e, ino, d, u, EMPTY, folders);
      nodes := nodes[ino := EMPTY];
      a := Done;
    }

    /** A new directory with the two dots. */
    method AddFolder(self: word, parent: word) returns (a: Answer)
      requires Valid()
      modifies this`nodes, this`folders, files.store`disk, files.store.items
      ensures Valid() && Did(files.store.e, old(Now()), MakeFolder(self, parent), a, Now())
    {
      hide NodeOk, VolumeOk, Owned, Keeps, FolderOk, StoredBytes, Directory.Dots, ListingOf;
      if self as int in nodes || self == 0 || parent == 0 || !GoodForFolders(files.store.e) {
        return Refused;
      }
      ghost var d, u, e := files.store.disk, files.store.Used(), files.store.e;
      NotAFolder(d, nodes, folders, e, u, self as int);
      var ok, n := names.Make(self, parent);
      if !ok {
        return NoRoom(0);
      }
      OneChanged(d, u, nodes, folders, e, self as int, files.store.disk, files.store.Used(), n, folders + {self as int});
      nodes, folders := nodes[self as int := n], folders + {self as int};
      a := Done;
    }

    /** Gives up an inode: exactly its blocks become free. */
    method Discard(ino: nat) returns (a: Answer)
      requires Valid()
      modifies this`nodes, this`folders, files.store.items
      ensures Valid() && Did(files.store.e, old(Now()), Reclaim(ino), a, Now())
      ensures ino in old(nodes) ==> files.store.Used() == old(files.store.Used()) - Owned(files.store.disk, old(nodes)[ino].ptrs)
    {
      hide NodeOk, VolumeOk, Owned, FolderOk, ThingOf;
      if ino !in nodes {
        return Refused;
      }
      NodeIs(ino);
      ghost var d, e, u := files.store.disk, files.store.e, files.store.Used();
      ghost var n0 := nodes[ino];
      var n := files.ReleaseBlocks(nodes[ino]);
      ReleasedAll(d, n0, u, n, files.store.Used(), e);
      OneGone(d, u, nodes, folders, e, ino, files.store.Used());
      nodes, folders := nodes - {ino}, folders - {ino};
      a := Done;
    }

    /** Looks a name up in a directory. */
    method LookUp(dir: nat, name: Name) returns (found: bool)
      requires Valid()
      ensures found <==> Has(files.store.e, Now(), dir, name)
    {
      hide NodeOk, VolumeOk, FolderOk, ListingOf;
      if dir !in folders {
        return false;
      }
      FolderIs(dir);
      var b, pos;
      ghost var i;
      found, b, pos, i := names.Find(nodes[dir], name);
    }

    lemma FolderIs(dir: nat)
      requires Valid() && dir in folders
      ensures dir in nodes && names.Ok(nodes[dir]) && |nodes[dir].ptrs| == 15 && files.store.e > 0
      ensures Things()[dir] == Folder(names.Names(nodes[dir]))
    {
      hide NodeOk, FilesApart, FolderOk, ListingOf;
    }

    /** Enters a new name in a directory. */
    method EnterName(dir: nat, name: Name, target: word, kind: byte) returns (a: Answer)
      requires Valid()
      modifies this`nodes, files.store`disk, files.store.items
      ensures Valid() && Did(files.store.e, old(Now()), Enter(dir, name, target, kind), a, Now())
    {
      hide NodeOk, VolumeOk, Owned, Keeps, FolderOk, ListingOf, ThingOf, PlaceFor, Did, Perform, AllThings;
      ghost var m, e := Now(), files.store.e;
      var found := LookUp(dir, name);
      if dir !in folders || found || name == [] || |name| > 255 || target == 0 {
        NotDone(e, m, Enter(dir, name, target, kind), Refused, m);
        return Refused;
      }
      FolderIs(dir);
      ghost var d, u := files.store.disk, files.store.Used();
      var ok, n := names.Add(nodes[dir], name, target, kind);
      a := if ok then Done else NoRoom(0);
      OneChanged(d, u, nodes, folders, e, dir, files.store.disk, files.store.Used(), n, folders);
      ListingThing(files.store.disk, n, e);
      nodes := nodes[dir := n];
      FolderDone(e, m, Enter(dir, name, target, kind), a, Now(), dir);
    }

    /** Lets a name of a directory stand for another inode. */
    method ReplaceName(dir: nat, name: Name, target: word, kind: byte) returns (a: Answer)
      requires Valid()
      modifies files.store`disk
      ensures Valid() && Did(files.store.e, old(Now()), Replace(dir, name, target, kind), a, Now())
    {
      hide NodeOk, VolumeOk, Owned, Keeps, FolderOk, ListingOf, ThingOf, Did, Perform, AllThings;
      ghost var m, e := Now(), files.store.e;
      if dir !in folders {
        NotDone(e, m, Replace(dir, name, target, kind), Refused, m);
        return Refused;
      }
      FolderIs(dir);
      ghost var d, u := files.store.disk, files.store.Used();
      var ok := names.Replace(nodes[dir], name, target, kind);
      OneChanged(d, u, nodes, folders, e, dir, files.store.disk, files.store.Used(), nodes[dir], folders);
      ListingThing(files.store.disk, nodes[dir], e);
      assert nodes[dir := nodes[dir]] == nodes;
      a := if ok then Done else Refused;
      FolderDone(e, m, Replace(dir, name, target, kind), a, Now(), dir);
    }

    /** Removes a name from a directory. */
    method RemoveName(dir: nat, name: Name) returns (a: Answer)
      requires Valid()
      modifies files.store`disk
      ensures Valid() && Did(files.store.e, old(Now()), Remove(dir, name), a, Now())
    {
      hide NodeOk, VolumeOk, Owned, Keeps, FolderOk, ListingOf, ThingOf, Did, Perform, AllThings;
      ghost var m, e := Now(), files.store.e;
      if dir !in folders {
        NotDone(e, m, Remove(dir, name), Refused, m);
        return Refused;
      }
      FolderIs(dir);
      ghost var d, u, l := files.store.disk, files.store.Used(), names.Names(nodes[dir]);
      assert name !in l ==> l - {name} == l;
      var ok, was := names.Remove(nodes[dir], name);
      OneChanged(d, u, nodes, folders, e, dir, files.store.disk, files.store.Used(), nodes[dir], folders);
      ListingThing(files.store.disk, nodes[dir], e);
      assert nodes[dir := nodes[dir]] == nodes;
      a := if ok then Done else Refused;
      FolderDone(e, m, Remove(dir, name), a, Now(), dir);
    }

    /** One call of a run. */
    method Step(op: Op) returns (a: Answer)
      requires Valid()
      modifies this`nodes, this`folders, files.store`disk, files.store.items
      ensures Valid() && Did(files.store.e, old(Now()), op, a, Now())
    {
      hide NodeOk, VolumeOk, Did;
      match op {
        case Create(ino) => a := AddFile(ino);
        case MakeFolder(self, parent) => a := AddFolder(self, parent);
        case Write(ino, offset, data) => a := WriteFile(ino, offset, data);
        case SetSize(ino, len) => a := TruncateFile(ino, len);
        case Reclaim(ino) => a := Discard(ino);
        case Enter(ino, name, target, kind) => a := EnterName(ino, name, target, kind);
        case Replace(ino, name, target, kind) => a := ReplaceName(ino, name, target, kind);
        case Remove(ino, name) => a := RemoveName(ino, name);
      }
    }

    /**
     * Any run of calls on files and directories.  After each call every inode is what the calls made it,
     * no block has two owners, and the answer is exactly the one that room and names dictate.  The files
     * are plain sequences of bytes throughout exactly when no write leaves rubbish behind an end.
     */
    method Run(ops: seq<Op>) returns (answers: seq<Answer>, ghost trace: seq<Snapshot>)
      requires Valid()
      modifies this`nodes, this`folders, files.store`disk, files.store.items
      ensures Valid() && Traced(files.store.e, ops, answers, trace) && trace[0] == old(Now()) && trace[|ops|] == Now()
      ensures AllTidy(old(Things())) ==>
                ((forall n :: 0 <= n <= |ops| ==> TidyAt(files.store.e, trace[n])) <==> Clean(files.store.e, ops, answers, trace, |ops|))
      ensures AllTidy(old(Things())) && Clean(files.store.e, ops, answers, trace, |ops|) ==>
                AllShown(Things()) == ApplyAll(AllShown(old(Things())), ops, answers)
    {
      hide NodeOk, VolumeOk, Did, Perform, AllTidy, AllShown, Apply, LeavesRubbish;
      answers, trace := [], [Now()];
      ghost var m0, e := Now(), files.store.e;
      for n := 0 to |ops|
        invariant Valid() && Traced(e, ops[..n], answers, trace) && trace[0] == m0 && trace[n] == Now()
      {
        var a := Step(ops[n]);
        TraceMore(e, ops, n, answers, trace, a, Now());
        answers, trace := answers + [a], trace + [Now()];
      }
      assert ops[..|ops|] == ops;
      if AllTidy(ThingsAt(e, m0)) {
        RunTidy(e, ops, answers, trace);
        if Clean(e, ops, answers, trace, |ops|) {
          RunShows(e, ops, answers, trace, |ops|);
          assert answers[..|ops|] == answers;
        }
      }
    }

    /**
     * A write behind the end of a file that runs out of room after `k` bytes leaves them there: growing
     * the file afterwards shows them and not zeros.
     */
    method GrowAfterFailure(ino: nat, offset: nat, data: seq<byte>) returns (k: nat)
      requires Valid() && ino in nodes && ino !in folders && nodes[ino].size <= offset
      requires files.store.e > 0 && |nodes[ino].ptrs| == 15
      requires !RoomFor(files.store.disk, nodes[ino].ptrs, files.store.e, files.store.Room(), offset, data)
      modifies this`nodes, files.store`disk, files.store.items
      ensures Valid() && k < |data| && ino in Things() && Things()[ino].Plain? && Things()[ino].size == offset + k
      ensures VolumeMeaning.Shown(Things()[ino])[offset..] == data[..k]
      ensures StopsAt(old(files.store.disk), old(nodes)[ino].ptrs, files.store.e, old(files.store.Room()), offset, k)
    {
      hide NodeOk, VolumeOk, FilesApart, FolderOk, ThingOf, RoomFor, StopsAt, Did, Perform, AllThings, Rewritten, Resized;
      ghost var m, e := Now(), files.store.e;
      ThingAt(e, m, ino);
      var a := WriteFile(ino, offset, data);
      WroteSome(e, m, Now(), ino, offset, data, a);
      ghost var m1 := Now();
      k := a.stored;
      a := TruncateFile(ino, offset + k);
      GrewOver(e, m1, Now(), ino, offset + k, a);
      StaleShows(ThingsAt(e, m)[ino], offset, data, k);
    }
  }

  // ----- putting one call together

  lemma ThingAt(e: nat, m: Snapshot, ino: nat)
    requires OkAt(e, m) && ino in m.nodes
    ensures ino in ThingsAt(e, m) && |m.nodes[ino].ptrs| == 15 && e > 0
    ensures ThingsAt(e, m)[ino] == ThingOf(m.disk, m.nodes[ino], e, ino in m.folders)
    ensures if ino in m.folders then ThingsAt(e, m)[ino] == Folder(ListingOf(m.disk, m.nodes[ino], e))
            else ThingsAt(e, m)[ino].Plain? && ThingsAt(e, m)[ino].size == m.nodes[ino].size
  {
    hide ListingOf, StoredBytes, NodeOk, FolderOk, FilesApart;
  }

  lemma NotDone(e: nat, m: Snapshot, op: Op, a: Answer, n: Snapshot)
    requires OkAt(e, m) && OkAt(e, n) && ThingsAt(e, n) == ThingsAt(e, m) && Replies(e, m, op, a)
    requires a.Refused? || (a.NoRoom? && !op.Write?)
    ensures Did(e, m, op, a, n)
  {
    hide OkAt, ThingsAt, Replies;
    RefusedNothing(ThingsAt(e, m), op);
  }

  lemma WriteRefused(e: nat, m: Snapshot, ino: nat, offset: nat, data: seq<byte>)
    requires OkAt(e, m) && (ino !in m.nodes || ino in m.folders)
    ensures Did(e, m, Write(ino, offset, data), Refused, m)
  {
    hide VolumeOk, ThingsAt, Perform;
    NotDone(e, m, Write(ino, offset, data), Refused, m);
  }

  lemma WriteDone(e: nat, m: Snapshot, n: Snapshot, ino: nat, offset: nat, data: seq<byte>, a: Answer, node: FileNode)
    requires OkAt(e, m) && OkAt(e, n) && ino in m.nodes && ino !in m.folders && |node.ptrs| == 15 && e > 0 && |m.nodes[ino].ptrs| == 15
    requires ThingsAt(e, n) == ThingsAt(e, m)[ino := ThingOf(n.disk, node, e, false)]
    requires ThingOf(n.disk, node, e, false) == Rewritten(ThingOf(m.disk, m.nodes[ino], e, false), offset, data, a)
    requires WriteReply(e, m, Write(ino, offset, data), a)
    ensures Did(e, m, Write(ino, offset, data), a, n)
  {
    hide OkAt, ThingsAt, ThingOf, Rewritten, WriteReply;
    ThingAt(e, m, ino);
  }

  lemma ResizeDone(e: nat, m: Snapshot, n: Snapshot, ino: nat, len: nat, node: FileNode)
    requires OkAt(e, m) && OkAt(e, n) && ino in m.nodes && ino !in m.folders && |node.ptrs| == 15 && e > 0 && |m.nodes[ino].ptrs| == 15
    requires ThingsAt(e, n) == ThingsAt(e, m)[ino := ThingOf(n.disk, node, e, false)]
    requires ThingOf(n.disk, node, e, false) == Resized(ThingOf(m.disk, m.nodes[ino], e, false), len)
    ensures Did(e, m, SetSize(ino, len), Done, n)
  {
    hide OkAt, ThingsAt, ThingOf, Resized;
    ThingAt(e, m, ino);
  }

  lemma ListingThing(d: Disk, n: FileNode, e: nat)
    requires |n.ptrs| == 15 && e > 0
    ensures ThingOf(d, n, e, true) == Folder(ListingOf(d, n, e))
  {
  }

  /** The listing a call on names leaves. */
  ghost function Renamed(names: Listing, op: Op, a: Answer): Listing {
    if !a.Done? then names
    else if op.Enter? || op.Replace? then names[op.name := DirRecords.Entry(op.target, op.kind)]
    else if op.Remove? then names - {op.name}
    else names
  }

  lemma FolderDone(e: nat, m: Snapshot, op: Op, a: Answer, n: Snapshot, dir: nat)
    requires OkAt(e, m) && OkAt(e, n) && dir in m.folders && dir in m.nodes && |m.nodes[dir].ptrs| == 15 && e > 0
    requires (op.Enter? || op.Replace? || op.Remove?) && op.ino == dir && Replies(e, m, op, a)
    requires ThingsAt(e, n) == ThingsAt(e, m)[dir := Folder(Renamed(ListingOf(m.disk, m.nodes[dir], e), op, a))]
    ensures Did(e, m, op, a, n)
  {
    hide OkAt, ThingsAt, ListingOf, Replies;
    ThingAt(e, m, dir);
    SameAgain(ThingsAt(e, m), dir);
  }

  lemma WroteAll(e: nat, m: Snapshot, n: Snapshot, ino: nat, offset: nat, data: seq<byte>, a: Answer)
    requires Did(e, m, Write(ino, offset, data), a, n) && ino in m.nodes && ino !in m.folders && data != []
    ensures !a.Refused? && ino in ThingsAt(e, m) && ThingsAt(e, m)[ino].Plain?
    ensures a.Done? ==> ino in ThingsAt(e, n) && ThingsAt(e, n)[ino] == Rewritten(ThingsAt(e, m)[ino], offset, data, Done)
  {
    hide OkAt, ThingsAt, RoomFor, StopsAt, Overlay;
    ThingAt(e, m, ino);
  }

  lemma WroteSome(e: nat, m: Snapshot, n: Snapshot, ino: nat, offset: nat, data: seq<byte>, a: Answer)
    requires Did(e, m, Write(ino, offset, data), a, n) && ino in m.nodes && ino !in m.folders && |m.nodes[ino].ptrs| == 15 && e > 0
    requires !RoomFor(m.disk, m.nodes[ino].ptrs, e, m.room, offset, data)
    ensures a.NoRoom? && a.stored < |data| && StopsAt(m.disk, m.nodes[ino].ptrs, e, m.room, offset, a.stored)
    ensures ino in ThingsAt(e, m) && ThingsAt(e, m)[ino].Plain? && ino in ThingsAt(e, n)
    ensures ThingsAt(e, n)[ino].Plain? && ThingsAt(e, n)[ino] == Rewritten(ThingsAt(e, m)[ino], offset, data, a)
  {
    hide OkAt, ThingsAt, RoomFor, StopsAt, Overlay;
    ThingAt(e, m, ino);
  }

  lemma GrewOver(e: nat, m: Snapshot, n: Snapshot, ino: nat, len: nat, a: Answer)
    requires Did(e, m, SetSize(ino, len), a, n) && OkAt(e, m) && ino in ThingsAt(e, m) && ThingsAt(e, m)[ino].Plain?
    ensures ino in ThingsAt(e, n) && ThingsAt(e, n)[ino] == Resized(ThingsAt(e, m)[ino], len)
  {
    hide ListingOf, StoredBytes, NodeOk, FolderOk, FilesApart, Resized;
  }

  lemma StaleShows(t: Thing, offset: nat, data: seq<byte>, k: nat)
    requires t.Plain? && t.size <= offset && k < |data|
    ensures var r := Rewritten(t, offset, data, NoRoom(k));
            && r.Plain? && Resized(r, offset + k).Plain? && Resized(r, offset + k).size == offset + k
            && VolumeMeaning.Shown(Resized(r, offset + k))[offset..] == data[..k]
  {
    var r := Resized(Rewritten(t, offset, data, NoRoom(k)), offset + k);
    assert VolumeMeaning.Shown(r)[offset..] == data[..k];
  }

  lemma SameAgain(things: map<nat, Thing>, ino: nat)
    requires ino in things
    ensures things[ino := things[ino]] == things
  {
  }

  lemma NotAFolder(d: Disk, nodes: map<nat, FileNode>, folders: set<nat>, e: nat, used: set<nat>, ino: nat)
    requires VolumeOk(d, nodes, folders, e, used) && ino !in nodes
    ensures ino !in folders
  {
  }

  lemma ReleasedAll(d: Disk, n: FileNode, used: set<nat>, n': FileNode, used': set<nat>, e: nat)
    requires CutTo(d, n.ptrs, used, d, n'.ptrs, used', e, 0) && Owned(d, n'.ptrs) == {}
    ensures used' == used - Owned(d, n.ptrs)
  {
    hide Rooted, Keeps, MapBlock, RawByte, Owned;
  }

  // ----- the calls of a run

  ghost predicate Traced(e: nat, ops: seq<Op>, answers: seq<Answer>, trace: seq<Snapshot>) {
    && |answers| == |ops| && |trace| == |ops| + 1 && OkAt(e, trace[0])
    && forall k :: 0 <= k < |ops| ==> Did(e, trace[k], ops[k], answers[k], trace[k + 1])
  }

  lemma TraceMore(e: nat, ops: seq<Op>, n: nat, answers: seq<Answer>, trace: seq<Snapshot>, a: Answer, m: Snapshot)
    requires n < |ops| && Traced(e, ops[..n], answers, trace) && Did(e, trace[n], ops[n], a, m)
    ensures Traced(e, ops[..n + 1], answers + [a], trace + [m])
  {
    hide Did, OkAt;
  }

  ghost predicate TidyAt(e: nat, m: Snapshot) {
    OkAt(e, m) && AllTidy(ThingsAt(e, m))
  }

  /** None of the first `n` calls leaves rubbish. */
  ghost predicate Clean(e: nat, ops: seq<Op>, answers: seq<Answer>, trace: seq<Snapshot>, n: nat)
    requires Traced(e, ops, answers, trace) && n <= |ops|
  {
    forall k :: 0 <= k < n ==> OkAt(e, trace[k]) && !LeavesRubbish(ThingsAt(e, trace[k]), ops[k], answers[k])
  }

  ghost function ApplyAll(files: map<nat, seq<byte>>, ops: seq<Op>, answers: seq<Answer>): map<nat, seq<byte>>
    requires |answers| == |ops|
  {
    if ops == [] then files
    else Apply(ApplyAll(files, ops[..|ops| - 1], answers[..|ops| - 1]), ops[|ops| - 1], answers[|ops| - 1])
  }

  /** As long as no call leaves rubbish, the files are plain sequences of bytes. */
  lemma {:induction false} RunShows(e: nat, ops: seq<Op>, answers: seq<Answer>, trace: seq<Snapshot>, n: nat)
    requires Traced(e, ops, answers, trace) && AllTidy(ThingsAt(e, trace[0])) && n <= |ops| && Clean(e, ops, answers, trace, n)
    ensures TidyAt(e, trace[n])
    ensures AllShown(ThingsAt(e, trace[n])) == ApplyAll(AllShown(ThingsAt(e, trace[0])), ops[..n], answers[..n])
  {
    hide OkAt, ThingsAt, AllTidy, AllShown, Apply, Perform, LeavesRubbish, Replies;
    if n > 0 {
      RunShows(e, ops, answers, trace, n - 1);
      ShowsNext(e, trace[n - 1], ops[n - 1], answers[n - 1], trace[n]);
      assert ops[..n][..n - 1] == ops[..n - 1] && answers[..n][..n - 1] == answers[..n - 1];
    }
  }

  lemma ShowsNext(e: nat, m: Snapshot, op: Op, a: Answer, n: Snapshot)
    requires Did(e, m, op, a, n) && AllTidy(ThingsAt(e, m))
    ensures AllShown(ThingsAt(e, n)) == Apply(AllShown(ThingsAt(e, m)), op, a)
    ensures TidyAt(e, n) <==> !LeavesRubbish(ThingsAt(e, m), op, a)
  {
    hide AllTidy, AllShown, Apply, Perform, LeavesRubbish, VolumeOk, ThingOf;
    assert Fresh(ThingsAt(e, m), op, a);
    PerformShows(ThingsAt(e, m), op, a);
  }

  /** Every point of a run is tidy exactly when no call leaves rubbish. */
  lemma RunTidy(e: nat, ops: seq<Op>, answers: seq<Answer>, trace: seq<Snapshot>)
    requires Traced(e, ops, answers, trace) && AllTidy(ThingsAt(e, trace[0]))
    ensures (forall n :: 0 <= n <= |ops| ==> TidyAt(e, trace[n])) <==> Clean(e, ops, answers, trace, |ops|)
  {
    hide OkAt, ThingsAt, AllTidy, AllShown, Apply, Perform, LeavesRubbish, Replies;
    if Clean(e, ops, answers, trace, |ops|) {
      forall n | 0 <= n <= |ops|
        ensures TidyAt(e, trace[n])
      {
        RunShows(e, ops, answers, trace, n);
      }
    } else {
      var k :| 0 <= k < |ops| && !(OkAt(e, trace[k]) && !LeavesRubbish(ThingsAt(e, trace[k]), ops[k], answers[k]));
      assert Did(e, trace[k], ops[k], answers[k], trace[k + 1]);
      if TidyAt(e, trace[k]) {
        ShowsNext(e, trace[k], ops[k], answers[k], trace[k + 1]);
      }
    }
  }

  lemma NoWrite(d: Disk, n: FileNode, e: nat, room: nat, offset: nat)
    requires |n.ptrs| == 15 && e > 0
    ensures RoomFor(d, n.ptrs, e, room, offset, []) && Rewritten(ThingOf(d, n, e, false), offset, [], Done) == ThingOf(d, n, e, false)
  {
  }
}
