/**
 * The image builder at work: blocks are handed out in order, every file gets its data blocks,
 * then its tables, children before the table that names them.
 */
module BuilderOps {
  import opened Bytes
  import opened Sets
  import opened BlockTree
  import opened TreeSteps
  import opened BlockStore
  import opened FileTree
  import opened FileSteps
  import opened ImageBuilder
  import opened SpaceNeed

  /** Nothing below block `n` changed. */
  ghost predicate Preserved(d: Disk, d': Disk, n: nat) {
    |d'| == |d| && forall b: nat :: b < n ==> Read(d', b) == Read(d, b)
  }

  lemma PreservedChain(d: Disk, d1: Disk, d2: Disk, n: nat, n1: nat)
    requires Preserved(d, d1, n) && Preserved(d1, d2, n1) && n <= n1
    ensures Preserved(d, d2, n)
  {
    hide Read;
  }

  /** The subtrees of a plan are what the given pointers lead to. */
  ghost predicate Loaded(p: Plan, d: Disk, ptrs: seq<nat>) {
    && |p.levels| == |p.kids| == |ptrs|
    && forall k :: 0 <= k < |ptrs| ==> p.kids[k] == Load(d, ptrs[k], p.levels[k])
  }

  lemma LoadedKept(p: Plan, e: nat, list: seq<nat>, d: Disk, d': Disk, ptrs: seq<nat>)
    requires Built(p, e, list) && Loaded(p, d, ptrs) && Preserved(d, d', p.starts[|p.kids|])
    ensures Loaded(p, d', ptrs)
  {
    hide Load, Read, BuiltTree, Part, BuiltKid;
    forall k | 0 <= k < |ptrs|
      ensures p.kids[k] == Load(d', ptrs[k], p.levels[k])
    {
      KidFacts(p, e, list, k);
      PlanOrder(p, e, list, k + 1, |p.kids|);
      LoadFrame(d, d', ptrs[k], p.levels[k]);
    }
  }

  lemma LoadedLength(p: Plan, d: Disk, ptrs: seq<nat>)
    requires Loaded(p, d, ptrs)
    ensures |p.levels| == |p.kids| == |ptrs|
  {
  }

  lemma BuiltLengths(p: Plan, e: nat, list: seq<nat>)
    requires Built(p, e, list)
    ensures |p.cuts| == |p.kids| + 1 == |p.starts|
  {
  }

  lemma FirstNext(e: nat, k: nat)
    requires 12 <= k < 15
    ensures First(e, k + 1) == First(e, k) + Span(e, k - 11)
  {
  }

  lemma LoadedGrows(p: Plan, d: Disk, ptrs: seq<nat>, b: nat, level: nat, cut: nat, start: nat)
    requires Loaded(p, d, ptrs)
    ensures Loaded(Grown(p, Load(d, b, level), level, cut, start), d, ptrs + [b])
  {
    hide Load;
  }

  /** A table's entries, continued by zeros. */
  function Extended(children: seq<nat>, e: nat): (t: seq<nat>)
    ensures |t| == e && forall k :: 0 <= k < e ==> t[k] == At(children, k)
  {
    seq(e, k requires 0 <= k < e => At(children, k))
  }

  /** A plan for single data blocks: one for every entry of the list, holes after its end. */
  lemma {:induction false} LeafPlan(ptrs: seq<nat>, e: nat, s: nat, n: nat, d: Disk) returns (p: Plan)
    requires e > 0 && Fits(ptrs, s)
    ensures Built(p, e, ptrs) && Even(p, e, 0) && |p.kids| == n && Loaded(p, d, Extended(ptrs, n))
    ensures p.starts[0] == p.starts[n] == s
  {
    hide BuiltTree, NoRepeats, BuiltKid;
    if n == 0 {
      p := Plan([], [], [0], [s]);
      EmptyPlan(e, ptrs, s);
    } else {
      var q := LeafPlan(ptrs, e, s, n - 1, d);
      var b := At(ptrs, n - 1);
      var t := Load(d, b, 0);
      assert q.cuts[n - 1] == n - 1;
      LeafBuilt(e, ptrs, n - 1, s, d);
      p := Grown(q, t, 0, n, s);
      PlanGrows(q, e, ptrs, t, 0, n, s);
      EvenGrows(q, e, 0, t, s);
      LoadedGrows(q, d, Extended(ptrs, n - 1), b, 0, n, s);
      assert Extended(ptrs, n) == Extended(ptrs, n - 1) + [b];
    }
  }

  lemma LeafBuilt(e: nat, ptrs: seq<nat>, k: nat, s: nat, d: Disk)
    requires e > 0 && Fits(ptrs, s)
    ensures BuiltTree(Load(d, At(ptrs, k), 0), e, 0, Part(ptrs, k, k + 1), s, s)
  {
    if k < |ptrs| {
      assert Part(ptrs, k, k + 1) == [ptrs[k]];
    }
  }

  lemma ExtendedNext(children: seq<nat>, e: nat)
    requires |children| < e
    ensures Extended(children + [0], e) == Extended(children, e)
  {
  }

  /** Writing the table above built children completes a built tree. */
  lemma {:induction false} TableWritten(p: Plan, e: nat, level: nat, list: seq<nat>, children: seq<nat>, d: Disk, root: nat)
    requires Built(p, e, list) && Even(p, e, level) && Loaded(p, d, children) && |children| <= e && e > 0
    requires |list| <= p.cuts[|children|] && |list| <= Span(e, level + 1) && Fits(list, p.starts[0])
    requires root == p.starts[|children|] && root > 0 && Table(Read(d, root)) == Extended(children, e)
    ensures BuiltTree(Load(d, root, level + 1), e, level + 1, list, p.starts[0], root + 1)
    decreases e - |children|
  {
    var n := |children|;
    if n < e {
      var cut := p.cuts[n] + Span(e, level);
      var q := Grown(p, Hole, level, cut, root);
      HoleBuilt(e, level, root);
      assert Part(list, p.cuts[n], cut) == [];
      PlanGrows(p, e, list, Hole, level, cut, root);
      EvenGrows(p, e, level, Hole, root);
      LoadHole(d, level);
      LoadedGrows(p, d, children, 0, level, cut, root);
      ExtendedNext(children, e);
      hide *;
      TableWritten(q, e, level, list, children + [0], d, root);
    } else {
      assert Table(Read(d, root)) == children;
      LoadNode(p, e, level, children, d, root);
      Assembled(p, e, level, list, root);
    }
  }

  lemma LoadHole(d: Disk, level: nat)
    ensures Load(d, 0, level) == Hole
  {
  }

  lemma LoadNode(p: Plan, e: nat, level: nat, children: seq<nat>, d: Disk, root: nat)
    requires Even(p, e, level) && Loaded(p, d, children) && root > 0 && Table(Read(d, root)) == children
    ensures Load(d, root, level + 1) == Node(root, p.kids)
  {
    LoadTable(d, root, level + 1);
    hide Load, Read, Table;
    assert Load(d, root, level + 1).kids == p.kids;
  }

  /** Midway through the children of one table: what is built so far, and where it is on the disk. */
  ghost predicate Partway(p: Plan, e: nat, level: nat, list: seq<nat>, d0: Disk, lo: nat, d: Disk, next: nat, children: seq<nat>) {
    && Built(p, e, list) && Even(p, e, level) && Loaded(p, d, children) && Preserved(d0, d, lo)
    && p.starts[0] == lo <= next == p.starts[|children|] && forall k :: 0 <= k < |children| ==> children[k] < next
  }

  lemma PartwayStart(e: nat, level: nat, list: seq<nat>, d: Disk, next: nat)
    ensures Partway(Plan([], [], [0], [next]), e, level, list, d, next, d, next, [])
  {
    EmptyPlan(e, list, next);
  }

  lemma PartwayStep(p: Plan, e: nat, level: nat, list: seq<nat>, d0: Disk, lo: nat, d: Disk, next: nat, children: seq<nat>,
                    d': Disk, root: nat, next': nat)
    requires Partway(p, e, level, list, d0, lo, d, next, children)
    requires Preserved(d, d', next) && root < next' && next <= next'
    requires var cut := p.cuts[|children|];
             BuiltTree(Load(d', root, level), e, level, Part(list, cut, cut + Span(e, level)), next, next')
    ensures var g := Grown(p, Load(d', root, level), level, p.cuts[|children|] + Span(e, level), next');
            Partway(g, e, level, list, d0, lo, d', next', children + [root])
  {
    hide BuiltTree, Load, Span, Part, Built, Even, Loaded, Preserved;
    BuiltLengths(p, e, list);
    LoadedLength(p, d, children);
    var cut := p.cuts[|children|];
    LoadedKept(p, e, list, d, d', children);
    LoadedGrows(p, d', children, root, level, cut + Span(e, level), next');
    PlanGrows(p, e, list, Load(d', root, level), level, cut + Span(e, level), next');
    EvenGrows(p, e, level, Load(d', root, level), next');
    PreservedChain(d0, d, d', lo, next);
  }

  lemma PartwayEnd(p: Plan, e: nat, level: nat, list: seq<nat>, d0: Disk, lo: nat, d: Disk, next: nat, children: seq<nat>, d': Disk)
    requires Partway(p, e, level, list, d0, lo, d, next, children) && Fits(list, lo) && 0 < e && 0 < next
    requires |list| <= p.cuts[|children|] && |list| <= Span(e, level + 1) && |children| <= e
    requires Preserved(d, d', next) && Table(Read(d', next)) == Extended(children, e)
    ensures BuiltTree(Load(d', next, level + 1), e, level + 1, list, lo, next + 1) && Preserved(d0, d', lo)
  {
    hide BuiltTree, Load, Span, Part, BuiltKid, Read, Table, Extended, Fits;
    LoadedKept(p, e, list, d, d', children);
    TableWritten(p, e, level, list, children, d', next);
    PreservedChain(d0, d, d', lo, next);
  }

  lemma PartwayRoom(p: Plan, e: nat, level: nat, list: seq<nat>, d0: Disk, lo: nat, d: Disk, next: nat, children: seq<nat>)
    requires Partway(p, e, level, list, d0, lo, d, next, children) && |list| <= Span(e, level + 1)
    ensures |p.cuts| == |children| + 1 == |p.starts| && lo <= next && Preserved(d0, d, lo)
    ensures p.cuts[|children|] < |list| ==> |children| < e
    ensures forall k :: 0 <= k < |children| ==> children[k] < next
  {
    hide BuiltKid, Load;
    var n, cap := |children|, Span(e, level);
    if n >= e {
      MulMonotone(e, n, cap);
    }
  }

  lemma LeavesPartway(list: seq<nat>, e: nat, d: Disk, next: nat) returns (p: Plan)
    requires Fits(list, next) && e > 0 && |list| <= Span(e, 1)
    ensures Partway(p, e, 0, list, d, next, d, next, list) && p.cuts[|list|] == |list| <= e
  {
    hide Built, BuiltTree, Load, NoRepeats;
    p := LeafPlan(list, e, next, |list|, d);
    assert Extended(list, |list|) == list;
  }

  // ----- one file

  /** Blocks have `4 * e` bytes, block numbers fit in 32 bits, and `next` is the next block to hand out. */
  ghost predicate Ready(d: Disk, e: nat, next: nat) {
    Geometry(d, e) && 0 < next <= |d| <= 0x1_0000_0000
  }

  lemma ReadyFacts(d: Disk, e: nat, next: nat)
    requires Ready(d, e, next)
    ensures e > 0 && 0 < next <= |d| <= 0x1_0000_0000 && Preserved(d, d, next)
  {
  }

  /** The bytes of file block `k`. */
  function Chunk(content: seq<byte>, e: nat, k: nat): (c: seq<byte>)
    ensures |c| <= 4 * e
  {
    assert (k + 1) * (4 * e) == k * (4 * e) + 4 * e;
    Part(content, k * (4 * e), k * (4 * e) + 4 * e)
  }

  function Padded(payload: seq<byte>, e: nat): (b: seq<byte>)
    requires |payload| <= 4 * e
    ensures |b| == 4 * e
  {
    payload + Zeros(4 * e - |payload|)
  }

  /** The first `n` file blocks lie in consecutive blocks from `lo` on. */
  ghost predicate DataLaid(d: Disk, e: nat, content: seq<byte>, lo: nat, data: seq<nat>) {
    forall k :: 0 <= k < |data| ==> data[k] == lo + k && Read(d, lo + k) == Padded(Chunk(content, e, k), e)
  }

  lemma DataGrows(d: Disk, d': Disk, e: nat, content: seq<byte>, lo: nat, data: seq<nat>)
    requires DataLaid(d, e, content, lo, data) && Preserved(d, d', lo + |data|)
    requires Read(d', lo + |data|) == Padded(Chunk(content, e, |data|), e)
    ensures DataLaid(d', e, content, lo, data + [lo + |data|])
  {
    hide Read, Padded, Chunk;
  }

  lemma DataKept(d: Disk, d': Disk, e: nat, content: seq<byte>, lo: nat, data: seq<nat>)
    requires DataLaid(d, e, content, lo, data) && Preserved(d, d', lo + |data|)
    ensures DataLaid(d', e, content, lo, data)
  {
    hide Read, Padded, Chunk;
  }

  lemma DataFits(d: Disk, e: nat, content: seq<byte>, lo: nat, data: seq<nat>)
    requires DataLaid(d, e, content, lo, data) && lo > 0
    ensures Fits(data, lo + |data|) && SetOf(data) == Range(lo, lo + |data|)
  {
    hide Read, Padded, Chunk;
    forall b: nat | lo <= b < lo + |data|
      ensures b in data
    {
      assert data[b - lo] == b;
    }
  }

  /** The pointers of an inode being filled in: direct ones first, then one table per level. */
  ghost predicate Rising(p: Plan, e: nat, data: seq<nat>, d0: Disk, lo: nat, d: Disk, next: nat, ptrs: seq<nat>) {
    && Built(p, e, data) && Loaded(p, d, ptrs) && Preserved(d0, d, lo) && |ptrs| <= 15
    && (forall k :: 0 <= k < |ptrs| ==> p.levels[k] == Level(k) && ptrs[k] < next)
    && (forall k :: 0 <= k <= |ptrs| ==> p.cuts[k] == First(e, k))
    && p.starts[0] == lo <= next == p.starts[|ptrs|]
  }

  lemma RisingStart(e: nat, data: seq<nat>, d: Disk, lo: nat) returns (p: Plan)
    requires e > 0 && Fits(data, lo) && lo > 0
    ensures Rising(p, e, data, d, lo, d, lo, Extended(data, 12))
  {
    hide Built, Load, NoRepeats;
    p := LeafPlan(data, e, lo, 12, d);
    BuiltLengths(p, e, data);
  }

  lemma RisingStep(p: Plan, e: nat, data: seq<nat>, d0: Disk, lo: nat, d: Disk, next: nat, ptrs: seq<nat>,
                   d': Disk, root: nat, next': nat)
    requires Rising(p, e, data, d0, lo, d, next, ptrs) && 12 <= |ptrs| < 15
    requires Preserved(d, d', next) && root < next' && next <= next'
    requires var level := |ptrs| - 11;
             BuiltTree(Load(d', root, level), e, level, Part(data, First(e, |ptrs|), First(e, |ptrs|) + Span(e, level)), next, next')
    ensures var level := |ptrs| - 11;
            Rising(Grown(p, Load(d', root, level), level, First(e, |ptrs| + 1), next'), e, data, d0, lo, d', next', ptrs + [root])
  {
    hide BuiltTree, Load, Span, Part, Built, Loaded, Preserved, First;
    var level, cut := |ptrs| - 11, First(e, |ptrs| + 1);
    FirstNext(e, |ptrs|);
    BuiltLengths(p, e, data);
    LoadedLength(p, d, ptrs);
    LoadedKept(p, e, data, d, d', ptrs);
    LoadedGrows(p, d', ptrs, root, level, cut, next');
    PlanGrows(p, e, data, Load(d', root, level), level, cut, next');
    PreservedChain(d0, d, d', lo, next);
  }

  lemma ForestIs(p: Plan, e: nat, data: seq<nat>, d0: Disk, lo: nat, d: Disk, next: nat, ptrs: seq<word>)
    requires Rising(p, e, data, d0, lo, d, next, ptrs)
    ensures Forest(d, ptrs) == p.kids
  {
    hide Built, Load;
  }

  lemma OwnedIs(p: Plan, e: nat, data: seq<nat>, d0: Disk, lo: nat, d: Disk, next: nat, ptrs: seq<word>)
    requires Rising(p, e, data, d0, lo, d, next, ptrs) && |ptrs| == 15 && Fits(data, lo) && lo > 0 && |data| <= First(e, 15)
    ensures Distinct(Whole(d, ptrs)) && Owned(d, ptrs) == SetOf(data) + Range(lo, next)
  {
    ForestIs(p, e, data, d0, lo, d, next, ptrs);
    BuiltLengths(p, e, data);
    PlanDistinct(p, e, data, 0);
    PlanUnion(p, e, data, 15);
    PrefixAll(p.kids);
    hide Built, Loaded, Distinct, Preserved, Fits;
  }

  /** The driver's lookup finds the data blocks in order, and nothing past the last one. */
  lemma MapIs(p: Plan, e: nat, data: seq<nat>, d0: Disk, lo: nat, d: Disk, next: nat, ptrs: seq<word>, i: nat)
    requires Rising(p, e, data, d0, lo, d, next, ptrs) && |ptrs| == 15 && |data| <= First(e, 15) && e > 0
    ensures MapBlock(d, ptrs, e, i) == At(data, i)
  {
    hide Load, Lookup, First, Distinct, Preserved;
    var k := Home(e, i);
    if k < 15 {
      HomeSpan(e, i);
      NextFirst(e, k);
      assert BuiltKid(p, e, data, k);
      PartAt(data, p.cuts[k], p.cuts[k + 1], i - First(e, k));
    }
  }

  lemma NextFirst(e: nat, k: nat)
    requires k < 15
    ensures First(e, k + 1) == First(e, k) + Span(e, Level(k))
  {
  }

  lemma ByteIs(d: Disk, e: nat, content: seq<byte>, lo: nat, data: seq<nat>, ptrs: seq<word>, x: nat)
    requires DataLaid(d, e, content, lo, data) && lo > 0 && e > 0 && |ptrs| == 15 && |content| <= |data| * (4 * e)
    requires MapBlock(d, ptrs, e, BlockOf(e, x)) == At(data, BlockOf(e, x))
    ensures RawByte(d, ptrs, e, x) == if x < |content| then content[x] else 0
  {
    hide MapBlock;
    var k, o := BlockOf(e, x), OffsetIn(e, x);
    SplitByte(e, x);
    if k < |data| {
      ChunkAt(content, e, k, o);
    } else {
      MulMonotone(|data|, k, 4 * e);
    }
  }

  lemma SplitByte(e: nat, x: nat)
    requires e > 0
    ensures x == BlockOf(e, x) * (4 * e) + OffsetIn(e, x)
  {
  }

  lemma ChunkAt(content: seq<byte>, e: nat, k: nat, o: nat)
    requires o < 4 * e
    ensures Padded(Chunk(content, e, k), e)[o] ==
            if k * (4 * e) + o < |content| then content[k * (4 * e) + o] else 0
  {
  }

  /** A file as laid out: a consistent inode that owns exactly the blocks `lo .. hi` and shows `content`. */
  ghost predicate FileLaid(d: Disk, n: FileNode, e: nat, lo: nat, hi: nat, content: seq<byte>) {
    && NodeOk(d, n, e, Range(lo, hi)) && Owned(d, n.ptrs) == Range(lo, hi) && n.size == |content|
    && Content(d, n, e) == content && ZeroPastEnd(d, n, e)
  }

  lemma RisingEnd(p: Plan, e: nat, data: seq<nat>, d0: Disk, lo: nat, d: Disk, next: nat, ptrs: seq<word>,
                  start: nat, content: seq<byte>, sectors: nat)
    requires Rising(p, e, data, d0, lo, d, next, ptrs) && |ptrs| == 15 && |data| <= First(e, 15) && Ready(d, e, next)
    requires DataLaid(d, e, content, start, data) && 0 < start && lo == start + |data| && Covers(|data|, 4 * e, |content|)
    requires sectors == (next - start) * SectorsPerBlock(e)
    ensures FileLaid(d, FileNode(ptrs, |content|, sectors, NoTable), e, start, next, content)
  {
    hide Rising, DataLaid, RawByte, Distinct, Whole, Owned, First, Fits, MapBlock, Content, ZeroPastEnd, BlockOf, NodeOk, Ready;
    DataFits(d, e, content, start, data);
    RisingOrder(p, e, data, d0, lo, d, next, ptrs);
    ReadyFacts(d, e, next);
    OwnedIs(p, e, data, d0, lo, d, next, ptrs);
    assert Range(start, next) == Range(start, lo) + Range(lo, next);
    NodeIs(d, ptrs, e, start, next, |content|);
    forall x: nat
      ensures RawByte(d, ptrs, e, x) == if x < |content| then content[x] else 0
    {
      MapIs(p, e, data, d0, lo, d, next, ptrs, BlockOf(e, x));
      ByteIs(d, e, content, start, data, ptrs, x);
    }
    ContentIs(d, FileNode(ptrs, |content|, sectors, NoTable), e, content);
  }

  lemma RisingOrder(p: Plan, e: nat, data: seq<nat>, d0: Disk, lo: nat, d: Disk, next: nat, ptrs: seq<nat>)
    requires Rising(p, e, data, d0, lo, d, next, ptrs)
    ensures lo <= next && Preserved(d0, d, lo) && forall k :: 0 <= k < |ptrs| ==> ptrs[k] < next
  {
  }

  lemma NodeIs(d: Disk, ptrs: seq<word>, e: nat, lo: nat, hi: nat, size: nat)
    requires Distinct(Whole(d, ptrs)) && Owned(d, ptrs) == Range(lo, hi) && lo <= hi && Ready(d, e, hi) && |ptrs| == 15
    ensures NodeOk(d, FileNode(ptrs, size, (hi - lo) * SectorsPerBlock(e), NoTable), e, Range(lo, hi))
  {
    hide Distinct, Whole, Owned;
    RangeSize(lo, hi);
  }

  lemma ContentIs(d: Disk, n: FileNode, e: nat, content: seq<byte>)
    requires |n.ptrs| == 15 && e > 0 && n.size == |content|
    requires forall x: nat :: RawByte(d, n.ptrs, e, x) == if x < |content| then content[x] else 0
    ensures Content(d, n, e) == content && ZeroPastEnd(d, n, e)
  {
    hide RawByte;
  }

  // ----- the builder

  lemma Appended(d: Disk, e: nat, next: nat, block: seq<byte>)
    requires Ready(d, e, next) && next < |d| && |block| == 4 * e
    ensures var d' := d[next := block];
            Ready(d', e, next + 1) && Preserved(d, d', next) && Read(d', next) == block
  {
  }

  datatype Outcome = Laid | OutOfSpace | TooLarge

  class Builder {
    const e: nat
    var disk: Disk
    var next: nat

    ghost predicate Valid()
      reads this
    {
      Ready(disk, e, next)
    }

    constructor (e: nat, total: nat, dataStart: nat)
      requires e > 0 && 0 < dataStart <= total <= 0x1_0000_0000
      ensures Valid() && this.e == e && next == dataStart && |disk| == total
    {
      this.e, disk, next := e, seq(total, _ => Zeros(4 * e)), dataStart;
    }

    /** Hands out the next block; fails when the image is full. */
    method AllocBlock(payload: seq<byte>) returns (ok: bool, b: nat)
      requires Valid() && |payload| <= 4 * e
      modifies this
      ensures Valid() && ok == (old(next) < |old(disk)|)
      ensures ok ==> b == old(next) && next == b + 1 && Read(disk, b) == Padded(payload, e)
      ensures !ok ==> next == old(next) == |disk| && disk == old(disk)
      ensures Preserved(old(disk), disk, old(next))
    {
      if next >= |disk| {
        return false, 0;
      }
      Appended(disk, e, next, Padded(payload, e));
      ok, b := true, next;
      disk, next := disk[next := Padded(payload, e)], next + 1;
    }

    /** Packs a table and writes it to a block of its own. */
    method AllocTable(children: seq<nat>) returns (ok: bool, b: nat)
      requires Valid() && |children| <= e && forall k :: 0 <= k < |children| ==> children[k] < next
      modifies this
      ensures Valid() && ok == (old(next) < |old(disk)|)
      ensures ok ==> b == old(next) && next == b + 1 && Table(Read(disk, b)) == Extended(children, e)
      ensures !ok ==> next == old(next) == |disk| && disk == old(disk)
      ensures Preserved(old(disk), disk, old(next))
    {
      hide Preserved, Table, Pack, Geometry, Read;
      var words := seq<word>(e, k requires 0 <= k < e => if k < |children| then children[k] else 0);
      assert words == Extended(children, e);
      TableOfPack(words);
      PackedSize(words);
      assert Padded(Pack(words), e) == Pack(words);
      ok, b := AllocBlock(Pack(words));
    }

    /**
     * Lays the pointers out below one table of the given height: the part of each child first,
     * then the table.  The tables use consecutive blocks, and reading the result back as the
     * driver does finds pointer `i` at index `i` and nothing past the end of the list.
     */
    method AllocIndirect(ptrs: seq<nat>, level: nat) returns (ok: bool, root: nat, tables: nat)
      requires Valid() && level >= 1 && |ptrs| <= Span(e, level) && Fits(ptrs, next)
      modifies this
      ensures Valid() && old(next) <= next && Preserved(old(disk), disk, old(next))
      ensures ok ==> BuiltTree(Load(disk, root, level), e, level, ptrs, old(next), next)
      ensures !ok ==> next == |disk|
      ensures ok ==> root < next && tables == next - old(next) && (ptrs == [] ==> root == 0)
      ensures e > 0 && (ok <==> old(next) + TableNeed(e, level, |ptrs|) <= |disk|)
      ensures ok ==> tables == TableNeed(e, level, |ptrs|)
      decreases level, 0
    {
      hide BuiltTree, Load, Span, Extended, Preserved, Ready, NoRepeats, Built, Even, Loaded, Table, Fits, TableNeed, ChildNeed;
      ReadyFacts(disk, e, next);
      NeedFacts(e, level, |ptrs|);
      if ptrs == [] {
        HoleBuilt(e, level, next);
        LoadHole(disk, level);
        return true, 0, 0;
      }
      ghost var d0, lo := disk, next;
      var children: seq<nat>;
      ghost var p: Plan;
      if level == 1 {
        children, tables := ptrs, 0;
        p := LeavesPartway(ptrs, e, disk, next);
      } else {
        ok, children, tables, p := AllocChildren(ptrs, level - 1);
        PreservedLength(d0, disk, lo);
        if !ok {
          return false, 0, 0;
        }
      }
      PartwayRoom(p, e, level - 1, ptrs, d0, lo, disk, next, children);
      ReadyFacts(disk, e, next);
      ghost var d1, n1 := disk, next;
      ok, root := AllocTable(children);
      tables := tables + 1;
      PreservedChain(d0, d1, disk, lo, n1);
      PreservedLength(d1, disk, n1);
      if ok {
        PartwayEnd(p, e, level - 1, ptrs, d0, lo, d1, n1, children, disk);
      }
    }

    /** The subtrees below one table, each over the next part of the list. */
    method AllocChildren(ptrs: seq<nat>, level: nat) returns (ok: bool, children: seq<nat>, tables: nat, ghost p: Plan)
      requires Valid() && level >= 1 && |ptrs| <= Span(e, level + 1) && Fits(ptrs, next)
      modifies this
      ensures Valid() && old(next) <= next && Preserved(old(disk), disk, old(next))
      ensures !ok ==> next == |disk|
      ensures ok ==> Partway(p, e, level, ptrs, old(disk), old(next), disk, next, children) && |children| <= e
      ensures ok ==> |p.cuts| == |children| + 1 && |ptrs| <= p.cuts[|children|] && tables == next - old(next)
      ensures e > 0 && (ok <==> old(next) + ChildNeed(e, level, |ptrs|) <= |disk|)
      ensures ok ==> tables == ChildNeed(e, level, |ptrs|)
      decreases level, 1
    {
      hide BuiltTree, Load, Span, Extended, Preserved, Ready, NoRepeats, Built, Even, Loaded, Table, Fits, TableNeed, ChildNeed;
      hide Partway;
      ReadyFacts(disk, e, next);
      ghost var d0, lo := disk, next;
      var i: nat, cap: nat := 0, Span(e, level);
      children := [];
      SpanPositive(e, level);
      p := Plan([], [], [0], [next]);
      PartwayStart(e, level, ptrs, disk, next);
      tables := 0;
      while i < |ptrs|
        invariant Valid() && Partway(p, e, level, ptrs, d0, lo, disk, next, children)
        invariant |p.cuts| == |children| + 1 && i == p.cuts[|children|] && |children| <= e
        invariant tables == next - lo && lo <= next <= |disk| == |d0| && Preserved(d0, disk, lo)
        invariant tables + ChildNeed(e, level, Left(|ptrs|, i)) == ChildNeed(e, level, |ptrs|)
        decreases |ptrs| - i
      {
        ChildNeedStep(e, level, |ptrs|, i);
        PartIs(ptrs, i, i + cap);
        PartwayRoom(p, e, level, ptrs, d0, lo, disk, next, children);
        PartFits(ptrs, lo, i, i + cap);
        FitsLater(Part(ptrs, i, i + cap), lo, next);
        ghost var d1, n1 := disk, next;
        var child, count;
        ok, child, count := AllocIndirect(Part(ptrs, i, i + cap), level);
        PreservedChain(d0, d1, disk, lo, n1);
        PreservedLength(d1, disk, n1);
        if !ok {
          return false, children, 0, p;
        }
        ReadyFacts(disk, e, next);
        PartwayStep(p, e, level, ptrs, d0, lo, d1, n1, children, disk, child, next);
        p := Grown(p, Load(disk, child, level), level, i + cap, next);
        children, i, tables := children + [child], i + cap, tables + count;
        PartwayRoom(p, e, level, ptrs, d0, lo, disk, next, children);
      }
      NoChildNeed(e, level);
      ok := true;
    }

    /** Copies the bytes of a file into consecutive blocks, the last one padded with zeros. */
    method LayData(content: seq<byte>) returns (ok: bool, data: seq<nat>)
      requires Valid()
      modifies this
      ensures Valid() && old(next) <= next && Preserved(old(disk), disk, old(next))
      ensures !ok ==> next == |disk|
      ensures ok ==> DataLaid(disk, e, content, old(next), data) && next == old(next) + |data|
      ensures e > 0 && (ok <==> old(next) + BlocksIn(|content|, 4 * e) <= |disk|)
      ensures ok ==> |data| == BlocksIn(|content|, 4 * e) && Covers(|data|, 4 * e, |content|)
    {
      hide Preserved, DataLaid, Ready, Chunk, Padded, BlocksIn, Covers;
      ghost var d0, start := disk, next;
      ReadyFacts(disk, e, next);
      data := [];
      var off: nat := 0;
      EmptyData(disk, e, content, start);
      while off < |content|
        invariant Valid() && Preserved(d0, disk, start) && next == start + |data|
        invariant DataLaid(disk, e, content, start, data)
        invariant off == |data| * (4 * e) && (off == 0 || off < |content| + 4 * e) && next <= |disk|
        decreases |content| - off
      {
        ghost var d1, n1 := disk, next;
        ReadyFacts(disk, e, next);
        ChunkIs(content, e, |data|);
        var b;
        ok, b := AllocBlock(Part(content, off, off + 4 * e));
        PreservedChain(d0, d1, disk, start, n1);
        PreservedLength(d1, disk, n1);
        if !ok {
          MoreNeeded(|content|, 4 * e, |data|);
          return;
        }
        DataGrows(d1, disk, e, content, start, data);
        NextMultiple(|data|, 4 * e);
        data, off := data + [b], off + 4 * e;
      }
      ok := true;
      NextMultiple(|data|, 4 * e);
      CoversNow(|data|, 4 * e, |content|);
      CoversOne(|data|, 4 * e, |content|);
    }

    /** Fills in the pointers of an inode: twelve direct ones, then up to three tables for the rest. */
    method LayPointers(data: seq<nat>) returns (ok: bool, ptrs: seq<nat>, tables: nat, ghost p: Plan)
      requires Valid() && Fits(data, next)
      modifies this
      ensures Valid() && old(next) <= next && Preserved(old(disk), disk, old(next))
      ensures !ok ==> next == |disk|
      ensures ok ==> Rising(p, e, data, old(disk), old(next), disk, next, ptrs)
      ensures ok ==> |ptrs| == 15 && tables == next - old(next)
      ensures e > 0 && (ok <==> old(next) + PointerNeed(e, 3, |data|) <= |disk|)
      ensures ok ==> tables == PointerNeed(e, 3, |data|)
    {
      hide Preserved, Rising, Ready, Fits, BuiltTree, Load, Span, First, Extended, Part, PointerNeed, TableNeed, ChildNeed;
      ghost var d1, lo := disk, next;
      ok, ptrs, tables := true, Extended(data, 12), 0;
      ReadyFacts(disk, e, next);
      p := RisingStart(e, data, disk, lo);
      RisingOrder(p, e, data, d1, lo, disk, next, ptrs);
      FirstTwelve(e);
      NoPointers(e, |data|);
      var at: nat := 12;
      for level := 1 to 4
        invariant ok && Valid() && Rising(p, e, data, d1, lo, disk, next, ptrs) && |ptrs| == 11 + level
        invariant at == First(e, |ptrs|) && tables == next - lo && lo <= next && Preserved(d1, disk, lo)
        invariant tables == PointerNeed(e, level - 1, |data|) && next <= |disk| == |d1|
      {
        var root: nat, cap: nat := 0, Span(e, level);
        ghost var d2, n2 := disk, next;
        ReadyFacts(disk, e, next);
        PartSize(data, at, at + cap);
        PartFits(data, lo, at, at + cap);
        FitsLater(Part(data, at, at + cap), lo, next);
        var count;
        ok, root, count := LayLevel(data, at, level);
        PreservedChain(d1, d2, disk, lo, n2);
        PreservedLength(d2, disk, n2);
        PointersStep(e, level, |data|, at);
        if !ok {
          MorePointers(e, level, |data|);
          return;
        }
        ReadyFacts(disk, e, next);
        RisingStep(p, e, data, d1, lo, d2, n2, ptrs, disk, root, next);
        FirstNext(e, |ptrs|);
        p := Grown(p, Load(disk, root, level), level, First(e, |ptrs| + 1), next);
        ptrs, at, tables := ptrs + [root], at + cap, tables + count;
      }
    }

    /** The table of one level, if any data blocks are left for it. */
    method LayLevel(data: seq<nat>, at: nat, level: nat) returns (ok: bool, root: nat, tables: nat)
      requires Valid() && level >= 1 && Fits(Part(data, at, at + Span(e, level)), next)
      modifies this
      ensures Valid() && old(next) <= next && Preserved(old(disk), disk, old(next))
      ensures !ok ==> next == |disk|
      ensures ok ==> root < next && tables == next - old(next)
      ensures ok ==> BuiltTree(Load(disk, root, level), e, level, Part(data, at, at + Span(e, level)), old(next), next)
      ensures e > 0 && (ok <==> old(next) + TableNeed(e, level, Least(Left(|data|, at), Span(e, level))) <= |disk|)
      ensures ok ==> tables == TableNeed(e, level, Least(Left(|data|, at), Span(e, level)))
    {
      hide Preserved, Ready, Fits, BuiltTree, Load, Span, TableNeed, ChildNeed;
      ReadyFacts(disk, e, next);
      PartSize(data, at, at + Span(e, level));
      PartIs(data, at, at + Span(e, level));
      NeedFacts(e, level, 0);
      if at < |data| {
        ok, root, tables := AllocIndirect(Part(data, at, at + Span(e, level)), level);
      } else {
        HoleBuilt(e, level, next);
        LoadHole(disk, level);
        return true, 0, 0;
      }
    }

    /**
     * Lays one file out.  On success the inode owns exactly the blocks handed out for it and
     * shows the given bytes; it fails only for want of room, or when the file has more than
     * `12 + e + e^2 + e^3` blocks.
     */
    method LayFile(content: seq<byte>) returns (result: Outcome, n: FileNode)
      requires Valid()
      modifies this
      ensures Valid() && old(next) <= next && Preserved(old(disk), disk, old(next))
      ensures result.Laid? ==> FileLaid(disk, n, e, old(next), next, content)
      ensures e > 0 && (result.OutOfSpace? <==> old(next) + FileNeed(e, |content|) > |disk|)
      ensures !result.OutOfSpace? ==> next == old(next) + FileNeed(e, |content|)
      ensures !result.OutOfSpace? ==> result.Laid? == (|content| <= First(e, 15) * (4 * e))
    {
      hide Preserved, Rising, DataLaid, FileLaid, Ready, Fits, First, Extended, Covers, PointerNeed, BlocksIn;
      n := FileNode([], 0, 0, NoTable);
      ghost var d0, start := disk, next;
      ReadyFacts(disk, e, next);
      var ok, data := LayData(content);
      PreservedLength(d0, disk, start);
      if !ok {
        return OutOfSpace, n;
      }
      DataFits(disk, e, content, start, data);
      ghost var d1, lo := disk, next;
      var ptrs: seq<nat>, tables: nat;
      ghost var p;
      ok, ptrs, tables, p := LayPointers(data);
      PreservedChain(d0, d1, disk, start, lo);
      PreservedLength(d1, disk, lo);
      if !ok {
        return OutOfSpace, n;
      }
      Capacity(|data|, 4 * e, |content|, First(e, 15));
      if First(e, 15) < |data| {
        return TooLarge, n;
      }
      ReadyFacts(disk, e, next);
      RisingOrder(p, e, data, d1, lo, disk, next, ptrs);
      var words := Words(ptrs);
      DataKept(d1, disk, e, content, start, data);
      var sectors := (|data| + tables) * SectorsPerBlock(e);
      RisingEnd(p, e, data, d1, lo, disk, next, words, start, content, sectors);
      n := FileNode(words, |content|, sectors, NoTable);
      result := Laid;
    }
  }

  function Words(ptrs: seq<nat>): (w: seq<word>)
    requires forall k :: 0 <= k < |ptrs| ==> ptrs[k] < 0x1_0000_0000
    ensures w == ptrs
  {
    seq<word>(|ptrs|, k requires 0 <= k < |ptrs| => ptrs[k])
  }

  lemma CoversNow(count: nat, size: nat, len: nat)
    requires size > 0 && count * size >= len && (count == 0 || count * size < len + size)
    ensures Covers(count, size, len)
  {
    NextMultiple(count, size);
  }

  lemma BlocksCover(len: nat, size: nat)
    requires size > 0
    ensures Covers(BlocksIn(len, size), size, len)
  {
    var q := BlocksIn(len, size);
    assert q * size <= len + size - 1 < q * size + size;
    NextMultiple(q, size);
  }

  /** Only one number of blocks holds the bytes without a spare block. */
  lemma CoversOne(count: nat, size: nat, len: nat)
    requires size > 0 && Covers(count, size, len)
    ensures count == BlocksIn(len, size)
  {
    hide Covers, BlocksIn;
    BlocksCover(len, size);
    CoversLe(count, BlocksIn(len, size), size, len);
    CoversLe(BlocksIn(len, size), count, size, len);
  }

  lemma CoversLe(a: nat, b: nat, size: nat, len: nat)
    requires Covers(a, size, len) && Covers(b, size, len)
    ensures a <= b
  {
    Capacity(a, size, len, b);
  }

  lemma MoreNeeded(len: nat, size: nat, count: nat)
    requires size > 0 && count * size < len
    ensures BlocksIn(len, size) > count
  {
    hide BlocksIn;
    BlocksCover(len, size);
    Capacity(BlocksIn(len, size), size, len, count);
  }

  lemma NoPointers(e: nat, n: nat)
    requires e > 0
    ensures PointerNeed(e, 0, n) == 0
  {
  }

  lemma PointersStep(e: nat, level: nat, n: nat, at: nat)
    requires e > 0 && 1 <= level <= 3 && at == First(e, 11 + level)
    ensures PointerNeed(e, level, n) == PointerNeed(e, level - 1, n) + TableNeed(e, level, Least(Left(n, at), Span(e, level)))
  {
    hide TableNeed, ChildNeed, First, Span;
    NeedFacts(e, level, 0);
    SpanPositive(e, level);
  }

  lemma {:induction false} MorePointers(e: nat, level: nat, n: nat)
    requires e > 0 && level <= 3
    ensures PointerNeed(e, level, n) <= PointerNeed(e, 3, n)
    decreases 3 - level
  {
    hide TableNeed, ChildNeed, First, Span;
    if level < 3 {
      MorePointers(e, level + 1, n);
    }
  }

  function Left(n: nat, i: nat): nat {
    if i < n then n - i else 0
  }

  lemma NeedFacts(e: nat, level: nat, n: nat)
    requires e > 0 && level >= 1
    ensures TableNeed(e, level, n) == if n == 0 then 0 else if level == 1 then 1 else 1 + ChildNeed(e, level - 1, n)
  {
  }

  lemma NoChildNeed(e: nat, level: nat)
    requires e > 0 && level >= 1
    ensures ChildNeed(e, level, 0) == 0
  {
  }

  lemma ChildNeedStep(e: nat, level: nat, n: nat, i: nat)
    requires e > 0 && level >= 1 && i < n
    ensures ChildNeed(e, level, Left(n, i)) ==
            TableNeed(e, level, Least(n - i, Span(e, level))) + ChildNeed(e, level, Left(n, i + Span(e, level)))
  {
    SpanPositive(e, level);
  }

  lemma PartIs(ptrs: seq<nat>, lo: nat, hi: nat)
    requires lo <= hi
    ensures |Part(ptrs, lo, hi)| == Least(Left(|ptrs|, lo), hi - lo)
  {
  }

  lemma PreservedLength(d: Disk, d': Disk, next: nat)
    requires Preserved(d, d', next)
    ensures |d'| == |d|
  {
  }

  lemma EmptyData(d: Disk, e: nat, content: seq<byte>, start: nat)
    ensures DataLaid(d, e, content, start, [])
  {
  }

  lemma ChunkIs(content: seq<byte>, e: nat, k: nat)
    ensures Chunk(content, e, k) == Part(content, k * (4 * e), k * (4 * e) + 4 * e)
  {
  }

  lemma NextMultiple(k: nat, size: nat)
    ensures (k + 1) * size == k * size + size && (k > 0 ==> (k - 1) * size == k * size - size)
  {
  }

  /** `count` blocks hold `len` bytes, and one less would not. */
  predicate Covers(count: nat, size: nat, len: nat) {
    len <= count * size && (count > 0 ==> (count - 1) * size < len)
  }

  lemma Capacity(count: nat, size: nat, len: nat, limit: nat)
    requires Covers(count, size, len)
    ensures count <= limit <==> len <= limit * size
  {
    if count <= limit {
      MulMonotone(count, limit, size);
    } else {
      MulMonotone(limit, count - 1, size);
    }
  }

  lemma FirstTwelve(e: nat)
    ensures First(e, 12) == 12
  {
  }

  lemma PartSize(ptrs: seq<nat>, lo: nat, hi: nat)
    requires lo <= hi
    ensures |Part(ptrs, lo, hi)| <= hi - lo
  {
  }

  lemma FitsLater(ptrs: seq<nat>, lo: nat, next: nat)
    requires Fits(ptrs, lo) && lo <= next
    ensures Fits(ptrs, next)
  {
  }

  lemma PackedSize(words: seq<word>)
    ensures |Pack(words)| == 4 * |words|
  {
  }
}
