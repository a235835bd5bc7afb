/**
 * A finished image: every file laid out, the block bitmap and the free counters written.
 * The driver mounts it as a consistent volume that holds exactly the given files.
 */
module BuiltVolume {
  import opened Bytes
  import opened Sets
  import opened BitWords
  import BitmapAllocator
  import opened BlockTree
  import opened ItemAllocator
  import opened BlockStore
  import opened FileTree
  import opened FileSteps
  import opened FileOps
  import opened Volume
  import VolumeMeaning
  import opened ImageBuilder
  import opened BuilderOps
  import opened SpaceNeed

  // ----- laying out all files

  /** Every file laid out so far is consistent, shows its contents, and shares no block with another. */
  ghost predicate AllLaid(d: Disk, nodes: map<nat, FileNode>, e: nat, start: nat, next: nat, contents: map<nat, seq<byte>>) {
    && AllOk(d, nodes, e, Range(start, next)) && FilesApart(d, nodes) && nodes.Keys <= contents.Keys
    && forall i :: i in nodes ==> Shows(d, nodes[i], e, contents[i])
  }

  ghost predicate Shows(d: Disk, n: FileNode, e: nat, content: seq<byte>) {
    |n.ptrs| == 15 && e > 0 && Content(d, n, e) == content && ZeroPastEnd(d, n, e)
  }

  lemma LaidFacts(d: Disk, n: FileNode, e: nat, lo: nat, hi: nat, content: seq<byte>, start: nat)
    requires FileLaid(d, n, e, lo, hi, content) && start <= lo <= hi <= |d|
    ensures NodeOk(d, n, e, Range(start, hi)) && Owned(d, n.ptrs) == Range(lo, hi) && Shows(d, n, e, content)
  {
    hide Owned, Distinct, Whole, ZeroPastEnd, Content;
  }

  lemma LaterKeeps(d: Disk, d': Disk, start: nat, next: nat, next': nat)
    requires Preserved(d, d', next) && start <= next <= next'
    ensures Keeps(d, Range(start, next), {}, d', Range(start, next'), Range(next, next'))
  {
    hide Read;
    assert Range(start, next') - Range(next, next') == Range(start, next) - {};
  }

  /** One more file, behind all the others. */
  lemma OneAdded(d: Disk, nodes: map<nat, FileNode>, e: nat, start: nat, next: nat, contents: map<nat, seq<byte>>,
                 d': Disk, next': nat, ino: nat, n: FileNode)
    requires AllLaid(d, nodes, e, start, next, contents) && ino !in nodes && ino in contents
    requires Preserved(d, d', next) && start <= next <= next' && Ready(d', e, next')
    requires FileLaid(d', n, e, next, next', contents[ino])
    ensures AllLaid(d', nodes[ino := n], e, start, next', contents)
  {
    hide NodeOk, Keeps, Owned, FileLaid, Shows, Preserved;
    LaidFacts(d', n, e, next, next', contents[ino], start);
    LaterKeeps(d, d', start, next, next');
    forall i | i in nodes
      ensures NodeOk(d', nodes[i], e, Range(start, next')) && Owned(d', nodes[i].ptrs) == Owned(d, nodes[i].ptrs)
      ensures Owned(d', nodes[i].ptrs) !! Range(next, next') && Shows(d', nodes[i], e, contents[i])
    {
      OtherNode(d, Range(start, next), {}, d', Range(start, next'), Range(next, next'), nodes[i], e);
      StillShows(d, d', nodes[i], e, contents[i]);
    }
  }

  lemma StillShows(d: Disk, d': Disk, n: FileNode, e: nat, content: seq<byte>)
    requires Shows(d, n, e, content) && SameBytes(d, n.ptrs, d', n.ptrs, e)
    ensures Shows(d', n, e, content)
  {
    hide RawByte;
  }

  /** Lays out one more file. */
  method LayNext(b: Builder, nodes: map<nat, FileNode>, ghost start: nat, contents: map<nat, seq<byte>>, ino: nat)
    returns (result: Outcome, nodes': map<nat, FileNode>)
    requires b.Valid() && AllLaid(b.disk, nodes, b.e, start, b.next, contents) && ino !in nodes && ino in contents && start <= b.next
    modifies b
    ensures b.Valid() && old(b.next) <= b.next && |b.disk| == |old(b.disk)| && b.e > 0
    ensures result.Laid? <==> old(b.next) + FileNeed(b.e, |contents[ino]|) <= |b.disk| && |contents[ino]| <= First(b.e, 15) * (4 * b.e)
    ensures result.TooLarge? ==> |contents[ino]| > First(b.e, 15) * (4 * b.e)
    ensures result.Laid? ==> b.next == old(b.next) + FileNeed(b.e, |contents[ino]|) && b.next <= |b.disk|
    ensures result.Laid? ==> nodes'.Keys == nodes.Keys + {ino} && AllLaid(b.disk, nodes', b.e, start, b.next, contents)
  {
    hide AllLaid, Preserved, Ready, FileLaid, First, FileNeed;
    ghost var d, next := b.disk, b.next;
    var n;
    result, n := b.LayFile(contents[ino]);
    PreservedLength(d, b.disk, next);
    ReadyFacts(b.disk, b.e, b.next);
    if !result.Laid? {
      return result, nodes;
    }
    OneAdded(d, nodes, b.e, start, next, contents, b.disk, b.next, ino, n);
    nodes' := nodes[ino := n];
  }

  /** Lays out the files in the given order. */
  method LayAll(b: Builder, order: seq<nat>, contents: map<nat, seq<byte>>) returns (result: Outcome, nodes: map<nat, FileNode>)
    requires b.Valid() && SetOf(order) == contents.Keys && NoRepeats(order)
    modifies b
    ensures b.Valid() && old(b.next) <= b.next && |b.disk| == |old(b.disk)|
    ensures result.Laid? ==> nodes.Keys == contents.Keys && AllLaid(b.disk, nodes, b.e, old(b.next), b.next, contents)
    ensures b.e > 0 && (result.Laid? <==> old(b.next) + AllNeed(b.e, order, contents) <= |b.disk| && AllFit(b.e, contents))
    ensures result.Laid? ==> b.next == old(b.next) + AllNeed(b.e, order, contents)
    ensures result.TooLarge? ==> !AllFit(b.e, contents)
  {
    hide AllLaid, Preserved, Ready, FileLaid, First, AllFit, FileNeed, AllNeed, FitFirst, SetOf, NoRepeats, LaidTo;
    nodes := map[];
    ghost var start := b.next;
    ReadyFacts(b.disk, b.e, b.next);
    NoneLaid(b.disk, b.e, start, contents);
    LaidNothing(b.disk, b.e, start, order, contents);
    for k := 0 to |order|
      invariant b.Valid() && start <= b.next <= |b.disk| && |b.disk| == |old(b.disk)|
      invariant LaidTo(b.disk, nodes, b.e, start, b.next, order, k, contents)
    {
      NextOf(b.disk, nodes, b.e, start, b.next, order, k, contents);
      ghost var d, nodes0, next := b.disk, nodes, b.next;
      result, nodes := LayNext(b, nodes, start, contents, order[k]);
      AllNeedNext(b.e, order, contents, k);
      FitNext(b.e, order, contents, k);
      if !result.Laid? {
        return;
      }
      LaidOneMore(d, nodes0, next, b.disk, nodes, b.next, b.e, start, order, k, contents);
    }
    LaidEnd(b.disk, nodes, b.e, start, b.next, order, contents);
    result := Laid;
  }

  /** The first `k` files of the list lie between `start` and `next`. */
  ghost predicate LaidTo(d: Disk, nodes: map<nat, FileNode>, e: nat, start: nat, next: nat, order: seq<nat>, k: nat,
                         contents: map<nat, seq<byte>>) {
    && e > 0 && k <= |order| && AllLaid(d, nodes, e, start, next, contents) && nodes.Keys == SetOf(order[..k])
    && next == start + AllNeed(e, order[..k], contents) && FitFirst(e, order[..k], contents)
  }

  lemma LaidNothing(d: Disk, e: nat, start: nat, order: seq<nat>, contents: map<nat, seq<byte>>)
    requires e > 0 && AllLaid(d, map[], e, start, start, contents)
    ensures LaidTo(d, map[], e, start, start, order, 0, contents)
  {
    hide AllLaid, First;
    assert order[..0] == [];
  }

  lemma NextOf(d: Disk, nodes: map<nat, FileNode>, e: nat, start: nat, next: nat, order: seq<nat>, k: nat, contents: map<nat, seq<byte>>)
    requires LaidTo(d, nodes, e, start, next, order, k, contents) && k < |order| && SetOf(order) == contents.Keys && NoRepeats(order)
    ensures order[k] in contents && order[k] !in nodes && AllLaid(d, nodes, e, start, next, contents)
    ensures FitFirst(e, order[..k], contents) && next == start + AllNeed(e, order[..k], contents)
  {
    hide AllLaid, First, AllNeed, FitFirst;
    assert order[k] in SetOf(order);
    assert order[k] !in order[..k];
  }

  lemma LaidOneMore(d: Disk, nodes: map<nat, FileNode>, next: nat, d': Disk, nodes': map<nat, FileNode>, next': nat,
                    e: nat, start: nat, order: seq<nat>, k: nat, contents: map<nat, seq<byte>>)
    requires LaidTo(d, nodes, e, start, next, order, k, contents) && k < |order| && AllLaid(d', nodes', e, start, next', contents)
    requires nodes'.Keys == nodes.Keys + {order[k]} && order[k] in contents && FitFirst(e, order[..k + 1], contents)
    requires next' == next + FileNeed(e, |contents[order[k]]|)
    ensures LaidTo(d', nodes', e, start, next', order, k + 1, contents)
  {
    hide AllLaid, First, FitFirst, FileNeed, AllNeed;
    AllNeedNext(e, order, contents, k);
    assert order[..k + 1] == order[..k] + [order[k]];
  }

  lemma LaidEnd(d: Disk, nodes: map<nat, FileNode>, e: nat, start: nat, next: nat, order: seq<nat>, contents: map<nat, seq<byte>>)
    requires LaidTo(d, nodes, e, start, next, order, |order|, contents) && SetOf(order) == contents.Keys
    ensures nodes.Keys == contents.Keys && AllLaid(d, nodes, e, start, next, contents)
    ensures next == start + AllNeed(e, order, contents) && AllFit(e, contents)
  {
    hide AllLaid, First, FitFirst, AllNeed, AllFit;
    assert order[..|order|] == order;
    FitAll(e, order, contents);
  }

  /** No file has more blocks than three levels of tables can map. */
  ghost predicate AllFit(e: nat, contents: map<nat, seq<byte>>) {
    forall i :: i in contents ==> |contents[i]| <= First(e, 15) * (4 * e)
  }

  ghost predicate FitFirst(e: nat, order: seq<nat>, contents: map<nat, seq<byte>>) {
    forall k :: 0 <= k < |order| ==> order[k] in contents && |contents[order[k]]| <= First(e, 15) * (4 * e)
  }

  /** Blocks needed for the files in the list. */
  ghost function AllNeed(e: nat, order: seq<nat>, contents: map<nat, seq<byte>>): nat
    requires e > 0
  {
    if order == [] then 0
    else
      AllNeed(e, order[..|order| - 1], contents)
      + if order[|order| - 1] in contents then FileNeed(e, |contents[order[|order| - 1]]|) else 0
  }

  lemma {:induction false} AllNeedPrefix(e: nat, order: seq<nat>, contents: map<nat, seq<byte>>, k: nat)
    requires e > 0 && k <= |order|
    ensures AllNeed(e, order[..k], contents) <= AllNeed(e, order, contents)
    decreases |order|
  {
    if k < |order| {
      AllNeedPrefix(e, order[..|order| - 1], contents, k);
      assert order[..|order| - 1][..k] == order[..k];
    } else {
      assert order[..k] == order;
    }
  }

  lemma AllNeedNext(e: nat, order: seq<nat>, contents: map<nat, seq<byte>>, k: nat)
    requires e > 0 && k < |order| && order[k] in contents
    ensures AllNeed(e, order[..k + 1], contents) == AllNeed(e, order[..k], contents) + FileNeed(e, |contents[order[k]]|)
    ensures AllNeed(e, order[..k + 1], contents) <= AllNeed(e, order, contents)
  {
    hide FileNeed;
    assert order[..k + 1][..k] == order[..k];
    AllNeedPrefix(e, order, contents, k + 1);
  }

  lemma FitNext(e: nat, order: seq<nat>, contents: map<nat, seq<byte>>, k: nat)
    requires k < |order| && order[k] in contents && FitFirst(e, order[..k], contents)
    ensures |contents[order[k]]| <= First(e, 15) * (4 * e) ==> FitFirst(e, order[..k + 1], contents)
    ensures |contents[order[k]]| > First(e, 15) * (4 * e) ==> !AllFit(e, contents)
  {
    hide First;
    assert forall j :: 0 <= j < k ==> order[..k + 1][j] == order[..k][j];
  }

  lemma FitAll(e: nat, order: seq<nat>, contents: map<nat, seq<byte>>)
    requires FitFirst(e, order, contents) && SetOf(order) == contents.Keys
    ensures AllFit(e, contents)
  {
    hide First;
    forall i | i in contents
      ensures |contents[i]| <= First(e, 15) * (4 * e)
    {
      assert i in SetOf(order);
      var k :| 0 <= k < |order| && order[k] == i;
    }
  }

  lemma NoneLaid(d: Disk, e: nat, start: nat, contents: map<nat, seq<byte>>)
    ensures AllLaid(d, map[], e, start, start, contents)
  {
  }

  // ----- the bitmap and the counters

  /** The only group of a built image. */
  function OneGroup(first: nat, total: nat, e: nat): Layout {
    Layout(first, total, 32 * e, 0, 1)
  }

  /** Marks every block handed out, and every bit behind the last block. */
  method BuildBitmap(e: nat, first: nat, next: nat, total: nat) returns (bitmap: array<bv32>)
    requires e > 0 && first <= next <= total <= first + 32 * e
    ensures fresh(bitmap) && bitmap.Length == e && Marks(bitmap[..], first, next, total)
  {
    hide Get;
    bitmap := new bv32[e](_ => 0);
    AllClear(bitmap[..]);
    for b := first to next
      invariant MarkedTo(bitmap[..], b - first)
    {
      Set(bitmap, b - first);
    }
    ghost var low := bitmap[..];
    for idx := total - first to 32 * e
      invariant Filled(low, bitmap[..], total - first, idx, true)
    {
      ghost var was := bitmap[..];
      Set(bitmap, idx);
      FilledChain(low, was, bitmap[..], total - first, idx, idx + 1, true);
    }
  }

  ghost predicate MarkedTo(words: seq<bv32>, n: int) {
    forall i: nat :: i < 32 * |words| ==> Get(words, i) == (i < n)
  }

  lemma AllClear(words: seq<bv32>)
    requires forall k :: 0 <= k < |words| ==> words[k] == 0
    ensures MarkedTo(words, 0)
  {
  }

  ghost predicate Marks(words: seq<bv32>, first: nat, next: nat, total: nat) {
    forall i: nat :: i < 32 * |words| ==> Get(words, i) == (i + first < next || total <= i + first)
  }

  lemma {:induction false} MarksCount(words: seq<bv32>, first: nat, next: nat, total: nat, n: nat)
    requires Marks(words, first, next, total) && n <= 32 * |words| && n <= total - first && first <= next <= total
    ensures BitmapAllocator.FreeCount(words, n) == if n <= next - first then 0 else n - (next - first)
  {
    hide Get;
    if n > 0 {
      MarksCount(words, first, next, total, n - 1);
    }
  }

  /** The bitmap and the counters agree, and the blocks in use are exactly those handed out. */
  lemma BitmapAgrees(words: seq<bv32>, e: nat, first: nat, next: nat, total: nat)
    requires |words| == e > 0 && Marks(words, first, next, total) && first <= next <= total <= first + 32 * e
    ensures var l := OneGroup(first, total, e);
            && Counted(l, [words], [total - next], total - next)
            && TakenSet(l, [words]) == Range(first, next)
            && (Known(l, 0) && 0 < next ==> Taken(l, [words], 0))
  {
    hide Get;
    var l := OneGroup(first, total, e);
    MarksCount(words, first, next, total, total - first);
    SumOne(total - next);
    forall v: nat | first <= v < total
      ensures Known(l, v) && Taken(l, [words], v) == (v < next)
    {
      GroupZero(v - first, 32 * e);
    }
  }

  lemma SumOne(x: nat)
    ensures Sum([x]) == x
  {
    assert Sum([x][..0]) == 0;
  }

  lemma GroupZero(z: nat, per: nat)
    requires z < per
    ensures z / per == 0 && z % per == z
  {
  }

  // ----- mounting

  /**
   * Builds an image and mounts it.  Either the image is too small, or a file is too large for
   * three levels of tables, or the driver finds a consistent volume that holds exactly the given
   * files and whose counters say how many blocks are free.
   */
  method BuildAndMount(e: nat, first: nat, dataStart: nat, total: nat, order: seq<nat>, contents: map<nat, seq<byte>>)
    returns (result: Outcome, mount: Mount?)
    requires e > 0 && first < dataStart <= total <= first + 32 * e && total <= 0x1_0000_0000
    requires SetOf(order) == contents.Keys && NoRepeats(order)
    ensures result.Laid? <==> mount != null
    ensures mount != null ==> mount.Valid() && mount.folders == {}
    ensures mount != null ==> VolumeMeaning.AllTidy(mount.Things()) && VolumeMeaning.AllShown(mount.Things()) == contents
    ensures mount != null ==> mount.files.store.items.superFree == total - first - |mount.files.store.Used()|
    ensures result.Laid? <==> dataStart + AllNeed(e, order, contents) <= total && AllFit(e, contents)
    ensures result.TooLarge? ==> !AllFit(e, contents)
  {
    hide AllFit, AllNeed;
    hide AllLaid, Ready, First, Counted, TakenSet, Marks, Known, Taken, AllOk, FilesApart;
    var b := new Builder(e, total, dataStart);
    mount := null;
    var nodes;
    result, nodes := LayAll(b, order, contents);
    if !result.Laid? {
      return;
    }
    ReadyFacts(b.disk, e, b.next);
    var bitmap := BuildBitmap(e, first, b.next, total);
    BitmapAgrees(bitmap[..], e, first, b.next, total);
    RangeSize(first, b.next);
    var items := new Items(OneGroup(first, total, e), [bitmap[..]], [total - b.next], total - b.next);
    ReadyDisk(b.disk, e, b.next);
    var store := new Store(e, items, b.disk);
    var files := new Files(store);
    LaidInUse(b.disk, nodes, e, dataStart, b.next, contents, first);
    AllSized(b.disk, nodes, e, Range(first, b.next));
    LaidContents(b.disk, nodes, e, dataStart, b.next, contents);
    mount := new Mount(files, nodes, {});
  }

  lemma ReadyDisk(d: Disk, e: nat, next: nat)
    requires Ready(d, e, next)
    ensures Geometry(d, e) && |d| <= 0x1_0000_0000
  {
  }

  lemma LaidInUse(d: Disk, nodes: map<nat, FileNode>, e: nat, start: nat, next: nat, contents: map<nat, seq<byte>>, first: nat)
    requires AllLaid(d, nodes, e, start, next, contents) && first <= start <= next <= |d|
    ensures AllOk(d, nodes, e, Range(first, next)) && FilesApart(d, nodes)
  {
    hide Owned, Distinct, Whole, Shows;
  }

  lemma LaidContents(d: Disk, nodes: map<nat, FileNode>, e: nat, start: nat, next: nat, contents: map<nat, seq<byte>>)
    requires AllLaid(d, nodes, e, start, next, contents) && nodes.Keys == contents.Keys && Sizes(nodes, e)
    ensures VolumeMeaning.AllTidy(AllThings(d, nodes, {}, e)) && VolumeMeaning.AllShown(AllThings(d, nodes, {}, e)) == contents
  {
    hide Content, ZeroPastEnd, AllOk, VolumeMeaning.Tidy, VolumeMeaning.Shown, StoredBytes;
    forall i | i in nodes
      ensures VolumeMeaning.Tidy(ThingOf(d, nodes[i], e, false)) && VolumeMeaning.Shown(ThingOf(d, nodes[i], e, false)) == contents[i]
    {
      ContentShown(d, nodes[i], e);
    }
  }
}
