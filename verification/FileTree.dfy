/**
 * What the fifteen block pointers of an inode mean: a map from file block numbers to disk
 * blocks, the set of blocks the file owns, and the bytes the file shows.
 */
module FileTree {
  import opened Bytes
  import opened BlockTree
  import opened TreeSteps
  import opened BlockStore

  datatype Cached = NoTable | CachedTable(block: nat, table: seq<word>)

  /** An inode in memory, with the copy of its first indirect table that lookups keep. */
  datatype FileNode = FileNode(ptrs: seq<word>, size: nat, sectors: nat, cached: Cached)

  /** How many blocks of `size` bytes hold `len` bytes. */
  function BlocksIn(len: nat, size: nat): nat
    requires size > 0
  {
    (len + size - 1) / size
  }

  /** Pointers 0 to 11 name data blocks; pointers 12 to 14 name tables of one to three levels. */
  function Level(k: nat): nat {
    if k < 12 then 0 else k - 11
  }

  ghost function Levels(): (levels: seq<nat>)
    ensures |levels| == 15 && forall k :: 0 <= k < 15 ==> levels[k] == Level(k)
  {
    seq(15, k requires 0 <= k < 15 => Level(k))
  }

  ghost function Forest(d: Disk, ptrs: seq<word>): (kids: seq<Tree>)
    ensures |kids| == |ptrs|
    ensures forall k :: 0 <= k < |ptrs| ==> kids[k] == Load(d, ptrs[k], Level(k))
  {
    seq(|ptrs|, k requires 0 <= k < |ptrs| => Load(d, ptrs[k], Level(k)))
  }

  /** The inode as the root above its pointers; block zero is never a real block. */
  ghost function Whole(d: Disk, ptrs: seq<word>): Tree {
    Node(0, Forest(d, ptrs))
  }

  /** Every block the file owns: data and tables. */
  ghost function Owned(d: Disk, ptrs: seq<word>): set<nat> {
    BlocksOfAll(Forest(d, ptrs))
  }

  // ----- the block map

  /** The first file block below each pointer. */
  function First(e: nat, k: nat): nat
    requires k <= 15
  {
    if k <= 12 then k else First(e, k - 1) + Span(e, k - 12)
  }

  /** The pointer that covers file block `i`; fifteen when none does. */
  function Home(e: nat, i: nat): (k: nat)
    ensures k <= 15
  {
    if i < 12 then i
    else if i < First(e, 13) then 12
    else if i < First(e, 14) then 13
    else if i < First(e, 15) then 14
    else 15
  }

  lemma HomeSpan(e: nat, i: nat)
    requires Home(e, i) < 15
    ensures First(e, Home(e, i)) <= i < First(e, Home(e, i)) + Span(e, Level(Home(e, i)))
  {
    var k := Home(e, i);
    assert First(e, 12) == 12;
    assert First(e, 13) == First(e, 12) + Span(e, 1);
    assert First(e, 14) == First(e, 13) + Span(e, 2);
    assert First(e, 15) == First(e, 14) + Span(e, 3);
  }

  /** The disk block that holds file block `i`, or zero. */
  ghost function MapBlock(d: Disk, ptrs: seq<word>, e: nat, i: nat): nat
    requires |ptrs| == 15 && e > 0
  {
    var k := Home(e, i);
    if k == 15 then 0
    else
      HomeSpan(e, i);
      Lookup(Load(d, ptrs[k], Level(k)), e, Level(k), i - First(e, k))
  }

  /** The file block that holds byte `x`, and the place of the byte in it. */
  function BlockOf(e: nat, x: nat): nat
    requires e > 0
  {
    var size: nat := 4 * e;
    NonNegative(x, size);
    x / size
  }

  function OffsetIn(e: nat, x: nat): (o: nat)
    requires e > 0
    ensures o < 4 * e
  {
    var size: nat := 4 * e;
    x % size
  }

  lemma NonNegative(x: nat, size: nat)
    requires size > 0
    ensures x / size >= 0
  {
  }

  /** Bytes fill the blocks one after the other. */
  lemma PlaceOfByte(e: nat, x: nat)
    requires e > 0
    ensures 4 * e * BlockOf(e, x) + OffsetIn(e, x) == x && OffsetIn(e, x) < 4 * e
  {
    var size: nat := 4 * e;
    assert x == size * (x / size) + x % size;
  }

  /** What entry `k` of the table at block `b` names; nothing below a hole. */
  ghost function EntryAt(d: Disk, b: nat, k: nat): nat {
    if b == 0 || 4 * k + 4 > |Read(d, b)| then 0 else Word(Read(d, b), k)
  }

  lemma FirstIs(e: nat)
    ensures Span(e, 0) == 1 && Span(e, 1) == e && Span(e, 2) == e * e && Span(e, 3) == e * (e * e)
    ensures First(e, 12) == 12 && First(e, 13) == 12 + e && First(e, 14) == 12 + e + e * e && First(e, 15) == 12 + e + e * e + e * (e * e)
  {
    assert Span(e, 1) == e * Span(e, 0) == e;
    assert Span(e, 2) == e * Span(e, 1);
    assert Span(e, 3) == e * Span(e, 2);
    assert First(e, 13) == First(e, 12) + Span(e, 1);
    assert First(e, 14) == First(e, 13) + Span(e, 2);
    assert First(e, 15) == First(e, 14) + Span(e, 3);
  }

  /** A lookup goes through entry `k` of the table and on from there. */
  lemma LookupDown(d: Disk, b: nat, e: nat, level: nat, k: nat, i: nat)
    requires Geometry(d, e) && k < e && i < Span(e, level)
    ensures k * Span(e, level) + i < Span(e, level + 1)
    ensures Lookup(Load(d, b, level + 1), e, level + 1, k * Span(e, level) + i) == Lookup(Load(d, EntryAt(d, b, k), level), e, level, i)
  {
    var s := Span(e, level);
    JoinIndex(k, i, e, s);
    assert Span(e, level + 1) == e * s;
    MulMonotone(k + 1, e, s);
    if b != 0 {
      var t := Table(Read(d, b));
      assert Load(d, b, level + 1).kids == seq(|t|, j requires 0 <= j < |t| => Load(d, t[j], level));
    }
  }

  lemma LookupLeaf(d: Disk, b: nat, e: nat)
    requires e > 0
    ensures Lookup(Load(d, b, 0), e, 0, 0) == b
  {
  }

  lemma LookupOne(d: Disk, b: nat, e: nat, k: nat)
    requires Geometry(d, e) && k < e
    ensures Lookup(Load(d, b, 1), e, 1, k) == EntryAt(d, b, k)
  {
    hide Lookup, Load, EntryAt;
    FirstIs(e);
    LookupDown(d, b, e, 0, k, 0);
    LookupLeaf(d, EntryAt(d, b, k), e);
  }

  lemma LookupTwo(d: Disk, b: nat, e: nat, j: nat, k: nat, i: nat)
    requires Geometry(d, e) && j < e && k < e && i == j * e + k
    ensures i < e * e && Lookup(Load(d, b, 2), e, 2, i) == EntryAt(d, EntryAt(d, b, j), k)
  {
    hide Lookup, Load, EntryAt;
    FirstIs(e);
    LookupDown(d, b, e, 1, j, k);
    LookupOne(d, EntryAt(d, b, j), e, k);
  }

  lemma LookupThree(d: Disk, b: nat, e: nat, h: nat, j: nat, k: nat, i: nat, l: nat)
    requires Geometry(d, e) && h < e && j < e && k < e && l == j * e + k && i == h * (e * e) + l
    ensures i < e * (e * e) && Lookup(Load(d, b, 3), e, 3, i) == EntryAt(d, EntryAt(d, EntryAt(d, b, h), j), k)
  {
    hide Lookup, Load, EntryAt;
    FirstIs(e);
    LookupTwo(d, EntryAt(d, b, h), e, j, k, l);
    LookupDown(d, b, e, 2, h, l);
  }

  /** The twelve direct pointers name the first blocks of a file, and the entries of one table the next. */
  lemma MapsDirect(d: Disk, ptrs: seq<word>, e: nat, k: nat)
    requires |ptrs| == 15 && Geometry(d, e)
    ensures k < 12 ==> MapBlock(d, ptrs, e, k) == ptrs[k]
    ensures k < e ==> MapBlock(d, ptrs, e, 12 + k) == EntryAt(d, ptrs[12], k)
    ensures k >= 12 + e + e * e + e * (e * e) ==> MapBlock(d, ptrs, e, k) == 0
  {
    hide Lookup, Load, EntryAt, Span;
    FirstIs(e);
    if k < 12 { LookupLeaf(d, ptrs[k], e); }
    if k < e { LookupOne(d, ptrs[12], e, k); }
  }

  /** A table of tables names the blocks behind those, in order. */
  lemma MapsTwice(d: Disk, ptrs: seq<word>, e: nat, j: nat, k: nat, i: nat)
    requires |ptrs| == 15 && Geometry(d, e) && j < e && k < e && i == 12 + e + (j * e + k)
    ensures MapBlock(d, ptrs, e, i) == EntryAt(d, EntryAt(d, ptrs[13], j), k)
  {
    hide Lookup, Load, EntryAt, First, Span;
    FirstIs(e);
    LookupTwo(d, ptrs[13], e, j, k, i - 12 - e);
  }

  /** A table of such tables names the blocks behind these. */
  lemma MapsThrice(d: Disk, ptrs: seq<word>, e: nat, h: nat, j: nat, k: nat, i: nat, l: nat)
    requires |ptrs| == 15 && Geometry(d, e) && h < e && j < e && k < e
    requires l == j * e + k && i == 12 + e + e * e + (h * (e * e) + l)
    ensures MapBlock(d, ptrs, e, i) == EntryAt(d, EntryAt(d, EntryAt(d, ptrs[14], h), j), k)
  {
    hide Lookup, Load, EntryAt, First, Span;
    FirstIs(e);
    LookupThree(d, ptrs[14], e, h, j, k, i - (12 + e + e * e), l);
  }

  /** The bytes a file shows at every offset, mapped or not. */
  ghost function RawByte(d: Disk, ptrs: seq<word>, e: nat, x: nat): byte
    requires |ptrs| == 15 && e > 0
  {
    var b := MapBlock(d, ptrs, e, BlockOf(e, x));
    if b == 0 || |Read(d, b)| <= OffsetIn(e, x) then 0 else Read(d, b)[OffsetIn(e, x)]
  }

  /** The `len` bytes a file shows from offset `from` on. */
  ghost function Shown(d: Disk, ptrs: seq<word>, e: nat, from: nat, len: nat): (s: seq<byte>)
    requires |ptrs| == 15 && e > 0
    ensures |s| == len
    ensures forall k :: 0 <= k < len ==> s[k] == RawByte(d, ptrs, e, from + k)
  {
    seq<byte>(len, k requires 0 <= k < len => RawByte(d, ptrs, e, from + k))
  }

  /** The contents of a file: the bytes below its size. */
  ghost function Content(d: Disk, n: FileNode, e: nat): seq<byte>
    requires |n.ptrs| == 15 && e > 0
  {
    Shown(d, n.ptrs, e, 0, n.size)
  }

  /** Every byte from the end of the file on is zero, mapped or not. */
  ghost predicate ZeroPastEnd(d: Disk, n: FileNode, e: nat)
    requires |n.ptrs| == 15 && e > 0
  {
    forall x: nat :: n.size <= x ==> RawByte(d, n.ptrs, e, x) == 0
  }

  // ----- well-formed files

  /** The file owns its blocks, each reached from one place, and all of them allocated. */
  ghost predicate Rooted(d: Disk, ptrs: seq<word>, e: nat, used: set<nat>) {
    && |ptrs| == 15 && Geometry(d, e) && (forall b :: b in used ==> 0 <= b < |d|)
    && Distinct(Whole(d, ptrs)) && Owned(d, ptrs) <= used
  }

  lemma OwnedTree(d: Disk, ptrs: seq<word>, e: nat, used: set<nat>, k: nat)
    requires Rooted(d, ptrs, e, used) && k < 15
    ensures var t := Load(d, ptrs[k], Level(k));
            Owns(t, used) && Shaped(t, e, Level(k)) && Blocks(t) <= Owned(d, ptrs) && Tables(t) <= TablesOfAll(Forest(d, ptrs))
  {
    hide Load;
    var w := Whole(d, ptrs);
    assert w.kids[k] == Load(d, ptrs[k], Level(k));
    BlocksOfKid(w.kids, k);
    LoadShaped(d, e, ptrs[k], Level(k));
  }

  /** A mapped block is an owned data block. */
  lemma MapOwned(d: Disk, ptrs: seq<word>, e: nat, used: set<nat>, i: nat)
    requires Rooted(d, ptrs, e, used)
    ensures var b := MapBlock(d, ptrs, e, i);
            b != 0 ==> b in Owned(d, ptrs) && b !in TablesOfAll(Forest(d, ptrs)) && b < |d|
  {
    hide Load, Lookup, Home, Whole, Distinct;
    var k := Home(e, i);
    var b := MapBlock(d, ptrs, e, i);
    if b != 0 {
      OwnedTree(d, ptrs, e, used, k);
      HomeSpan(e, i);
      LookupInBlocks(Load(d, ptrs[k], Level(k)), e, Level(k), i - First(e, k));
      DataNotTable(d, ptrs, e, used, k, b);
    }
  }

  lemma DataNotTable(d: Disk, ptrs: seq<word>, e: nat, used: set<nat>, k: nat, b: nat)
    requires Rooted(d, ptrs, e, used) && k < 15
    requires b in Blocks(Load(d, ptrs[k], Level(k))) && b !in Tables(Load(d, ptrs[k], Level(k)))
    ensures b !in TablesOfAll(Forest(d, ptrs)) && b < |d|
  {
    hide Load;
    var w := Whole(d, ptrs);
    BlocksOfKid(w.kids, k);
    if b in TablesOfAll(w.kids) {
      var j := KidOfTable(w.kids, b);
      TablesAreBlocks(w.kids[j]);
      OneChild(w, j, k, b);
    }
  }

  /** Two file blocks never share a disk block. */
  lemma MapInjective(d: Disk, ptrs: seq<word>, e: nat, used: set<nat>, i: nat, j: nat)
    requires Rooted(d, ptrs, e, used)
    requires MapBlock(d, ptrs, e, i) == MapBlock(d, ptrs, e, j) != 0
    ensures i == j
  {
    hide Load, Lookup, Home;
    var k, l := Home(e, i), Home(e, j);
    HomeSpan(e, i);
    HomeSpan(e, j);
    OwnedTree(d, ptrs, e, used, k);
    OwnedTree(d, ptrs, e, used, l);
    var w := Whole(d, ptrs);
    LookupInBlocks(w.kids[k], e, Level(k), i - First(e, k));
    LookupInBlocks(w.kids[l], e, Level(l), j - First(e, l));
    OneChild(w, k, l, MapBlock(d, ptrs, e, i));
    LookupInjective(w.kids[k], e, Level(k), i - First(e, k), j - First(e, k));
  }

  // ----- framing

  /** The pointers of a file mean the same while its table blocks are unchanged. */
  lemma ForestFrame(d: Disk, d': Disk, ptrs: seq<word>)
    requires forall b :: b in TablesOfAll(Forest(d, ptrs)) ==> Read(d', b) == Read(d, b)
    ensures Forest(d', ptrs) == Forest(d, ptrs)
  {
    hide Load, Read;
    forall k | 0 <= k < |ptrs|
      ensures Load(d', ptrs[k], Level(k)) == Load(d, ptrs[k], Level(k))
    {
      BlocksOfKid(Forest(d, ptrs), k);
      LoadFrame(d, d', ptrs[k], Level(k));
    }
  }

  lemma MapFrame(d: Disk, d': Disk, ptrs: seq<word>, e: nat, i: nat)
    requires |ptrs| == 15 && e > 0 && Forest(d', ptrs) == Forest(d, ptrs)
    ensures MapBlock(d', ptrs, e, i) == MapBlock(d, ptrs, e, i)
  {
    hide Load, Lookup;
    var k := Home(e, i);
    if k < 15 {
      assert Forest(d, ptrs)[k] == Forest(d', ptrs)[k];
    }
  }

  /** A file reads the same while the blocks it owns are unchanged. */
  lemma BytesFrame(d: Disk, d': Disk, ptrs: seq<word>, e: nat, used: set<nat>, x: nat)
    requires Rooted(d, ptrs, e, used)
    requires forall b :: b in Owned(d, ptrs) ==> Read(d', b) == Read(d, b)
    ensures RawByte(d', ptrs, e, x) == RawByte(d, ptrs, e, x)
  {
    hide Load, Lookup, MapBlock, Read, BlockOf, OffsetIn;
    TablesOfAllAreBlocks(Forest(d, ptrs));
    ForestFrame(d, d', ptrs);
    MapFrame(d, d', ptrs, e, BlockOf(e, x));
    MapOwned(d, ptrs, e, used, BlockOf(e, x));
  }

  // ----- truncation

  /** The subtrees of a file cut down to its first `keep` blocks. */
  ghost function CutForest(d: Disk, ptrs: seq<word>, e: nat, keep: nat): (p: seq<Tree>)
    requires |ptrs| == 15
    ensures |p| == 15
    ensures forall k :: 0 <= k < 15 ==> p[k] == Prune(Load(d, ptrs[k], Level(k)), e, Level(k), First(e, k), keep)
  {
    seq(15, k requires 0 <= k < 15 => Prune(Load(d, ptrs[k], Level(k)), e, Level(k), First(e, k), keep))
  }

  lemma CutBelow(d: Disk, ptrs: seq<word>, e: nat, keep: nat)
    requires |ptrs| == 15
    ensures Below(Whole(d, ptrs), CutForest(d, ptrs, e, keep))
  {
    hide Load, Prune, First;
    forall k | 0 <= k < 15
      ensures var t, c := Load(d, ptrs[k], Level(k)), CutForest(d, ptrs, e, keep)[k];
              Blocks(c) <= Blocks(t) && Tables(c) <= Tables(t)
    {
      PruneShrinks(Load(d, ptrs[k], Level(k)), e, Level(k), First(e, k), keep);
    }
  }

  /** Cutting keeps the map below `keep` and unmaps every later block. */
  lemma CutMap(d: Disk, ptrs: seq<word>, e: nat, used: set<nat>, keep: nat, d': Disk, ptrs': seq<word>, i: nat)
    requires Rooted(d, ptrs, e, used) && |ptrs'| == 15
    requires Forest(d', ptrs') == CutForest(d, ptrs, e, keep)
    ensures MapBlock(d', ptrs', e, i) == if i < keep then MapBlock(d, ptrs, e, i) else 0
  {
    hide Load, Lookup, Prune, Home, First;
    var k := Home(e, i);
    if k < 15 {
      HomeSpan(e, i);
      OwnedTree(d, ptrs, e, used, k);
      assert Forest(d', ptrs')[k] == CutForest(d, ptrs, e, keep)[k];
      PruneLookup(Load(d, ptrs[k], Level(k)), e, Level(k), First(e, k), keep, i - First(e, k));
    }
  }

  lemma CutDistinct(d: Disk, ptrs: seq<word>, e: nat, keep: nat)
    requires |ptrs| == 15 && Distinct(Whole(d, ptrs))
    ensures Distinct(Node(0, CutForest(d, ptrs, e, keep)))
  {
    hide Load, Prune, First;
    var p := CutForest(d, ptrs, e, keep);
    CutBelow(d, ptrs, e, keep);
    forall k | 0 <= k < 15
      ensures Distinct(p[k])
    {
      assert Whole(d, ptrs).kids[k] == Load(d, ptrs[k], Level(k));
      PruneDistinct(Load(d, ptrs[k], Level(k)), e, Level(k), First(e, k), keep);
    }
    DistinctBelow(Whole(d, ptrs), Node(0, p));
  }
}
