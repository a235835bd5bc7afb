/**
 * What the memory calls mean when every process has its own copy of everything, and exactly when
 * a kernel that shares frames cannot be told apart from one that copies.
 */
module CopiedMemory {
  import Bytes
  import opened Regions
  import opened PageTables
  import opened CopyOnWrite
  import opened ForkSteps
  import opened UnmapSteps

  datatype Outcome = Done | Fault | NoMemory

  // ----- what the operations mean when every process has its own copy of everything

  ghost predicate Writable(s: map<nat, Space>, p: nat, v: nat) {
    p in s && v in s[p] && s[p][v].write
  }

  ghost function Stored(s: map<nat, Space>, p: nat, v: nat, offset: nat, b: Bytes.byte): map<nat, Space>
    requires p in s && v in s[p]
  {
    Put(s, p, Put(s[p], v, s[p][v].(content := StoreByte(s[p][v].content, offset, b))))
  }

  datatype Op =
    | StoreOp(p: nat, v: nat, offset: nat, b: Bytes.byte)
    | ForkOp(p: nat, c: nat)
    | MmapOp(p: nat, hint: nat, fixed: bool, pages: nat, write: bool, other: nat, stackBase: nat, stackPages: nat)
    | MunmapOp(p: nat, lo: nat, pages: nat)
    | ProtectOp(p: nat, lo: nat, pages: nat, write: bool, other: nat)
    | ExitOp(p: nat)

  /** What the caller is told: success, refusal or lack of memory, and the address of a new mapping. */
  datatype Result = Result(outcome: Outcome, addr: nat)

  /** Address spaces after one operation when every process has its own copy of everything. */
  ghost function Apply(s: map<nat, Space>, op: Op, r: Result): map<nat, Space> {
    if !r.outcome.Done? || op.p !in s then s
    else match op
      case StoreOp(p, v, offset, b) => if v in s[p] then Stored(s, p, v, offset, b) else s
      case ForkOp(p, c) => Forked(s, p, c)
      case MmapOp(p, _, _, pages, write, other, _, _) => Put(s, p, Extended(s[p], r.addr, ZeroPages(pages), write, other))
      case MunmapOp(p, lo, pages) => Put(s, p, Without(s[p], lo, lo + pages))
      case ProtectOp(p, lo, pages, write, other) => Put(s, p, Reprotected(s[p], lo, lo + pages, write, other))
      case ExitOp(p) => s - {p}
  }

  /** The answer such a kernel would give, up to running out of memory. */
  ghost predicate Agrees(s: map<nat, Space>, op: Op, r: Result, limit: nat) {
    match op
    case StoreOp(p, v, offset, b) => r.outcome.Fault? <==> !Writable(s, p, v)
    case ForkOp(p, c) => r.outcome.Done? <==> p in s && c !in s
    case MmapOp(p, _, _, pages, _, _, stackBase, _) =>
      r.outcome.Done? ==> && p in s && pages > 0 && 0 < r.addr && r.addr + pages <= stackBase && r.addr + pages < limit
                          && forall v: nat :: r.addr <= v < r.addr + pages ==> v !in s[p]
    case MunmapOp(p, lo, pages) =>
      r.outcome.Done? <==> p in s && 0 < lo && lo + pages < limit && exists v: nat :: lo <= v < lo + pages && v in s[p]
    case ProtectOp(p, lo, pages, _, _) =>
      r.outcome.Done? <==> p in s && 0 < lo && 0 < pages && lo + pages < limit && forall v: nat :: lo <= v < lo + pages ==> v in s[p]
    case ExitOp(p) => r.outcome.Done? <==> p in s
  }

  // ----- what each call means, page by page and byte by byte

  /** A store changes one byte of one page of one process. */
  lemma StoreMeans(s: map<nat, Space>, p: nat, v: nat, offset: nat, b: Bytes.byte, q: nat, w: nat)
    requires p in s && v in s[p] && q in s && w in s[q]
    ensures var n := Apply(s, StoreOp(p, v, offset, b), Result(Done, 0));
            && n.Keys == s.Keys && n[q].Keys == s[q].Keys && ((q, w) != (p, v) ==> n[q][w] == s[q][w])
            && n[p][v].write == s[p][v].write && n[p][v].other == s[p][v].other && |n[p][v].content| == |s[p][v].content|
            && forall k :: 0 <= k < |s[p][v].content| ==> n[p][v].content[k] == if k == offset then b else s[p][v].content[k]
  {
  }

  /** A fork gives the child the parent's memory, and nobody else anything. */
  lemma ForkMeans(s: map<nat, Space>, p: nat, c: nat)
    requires p in s && c !in s
    ensures var n := Apply(s, ForkOp(p, c), Result(Done, 0));
            n.Keys == s.Keys + {c} && n[c] == s[p] && forall q :: q in s ==> n[q] == s[q]
  {
  }

  /** A mapping adds pages of 4096 zeros with the given rights where none were. */
  lemma MmapMeans(s: map<nat, Space>, op: Op, addr: nat, q: nat, w: nat)
    requires op.MmapOp? && op.p in s && q in s
    ensures var n := Apply(s, op, Result(Done, addr));
            && n.Keys == s.Keys && (q != op.p ==> n[q] == s[q])
            && (w in n[op.p] <==> w in s[op.p] || addr <= w < addr + op.pages)
            && (w in s[op.p] && !(addr <= w < addr + op.pages) ==> n[op.p][w] == s[op.p][w])
            && (addr <= w < addr + op.pages ==>
                  var x := n[op.p][w]; x.write == op.write && x.other == op.other && |x.content| == 4096 && forall k :: 0 <= k < 4096 ==> x.content[k] == 0)
  {
  }

  /** Unmapping takes the pages of the range from the process, and changes no other page. */
  lemma MunmapMeans(s: map<nat, Space>, p: nat, lo: nat, pages: nat, q: nat, w: nat)
    requires p in s && q in s
    ensures var n := Apply(s, MunmapOp(p, lo, pages), Result(Done, 0));
            && n.Keys == s.Keys && (q != p ==> n[q] == s[q])
            && (w in n[p] <==> w in s[p] && !(lo <= w < lo + pages)) && (w in n[p] ==> n[p][w] == s[p][w])
  {
  }

  /** A change of rights leaves the contents alone, and every other page. */
  lemma ProtectMeans(s: map<nat, Space>, p: nat, lo: nat, pages: nat, write: bool, other: nat, q: nat, w: nat)
    requires p in s && q in s
    ensures var n := Apply(s, ProtectOp(p, lo, pages, write, other), Result(Done, 0));
            && n.Keys == s.Keys && (q != p ==> n[q] == s[q]) && n[p].Keys == s[p].Keys
            && (w in s[p] ==> n[p][w].content == s[p][w].content)
            && (w in s[p] ==> if lo <= w < lo + pages then n[p][w].write == write && n[p][w].other == other else n[p][w] == s[p][w])
  {
  }

  /** A process that exits is gone; a call that is not done changes nothing. */
  lemma ExitMeans(s: map<nat, Space>, p: nat, op: Op, r: Result)
    requires p in s
    ensures var n := Apply(s, ExitOp(p), Result(Done, 0));
            n.Keys == s.Keys - {p} && forall q :: q in n ==> n[q] == s[q]
    ensures !r.outcome.Done? ==> Apply(s, op, r) == s
  {
  }

  ghost function ApplyAll(s: map<nat, Space>, ops: seq<Op>, rs: seq<Result>): map<nat, Space>
    requires |rs| == |ops|
  {
    if ops == [] then s
    else Apply(ApplyAll(s, ops[..|ops| - 1], rs[..|ops| - 1]), ops[|ops| - 1], rs[|ops| - 1])
  }

  ghost function Forked(s: map<nat, Space>, p: nat, c: nat): map<nat, Space>
    requires p in s
  {
    Put(s, c, s[p])
  }

  /** Pages of zeros. */
  function ZeroPages(n: nat): (z: seq<Page>)
    ensures |z| == n && forall k :: 0 <= k < n ==> |z[k]| == 4096 && forall x :: 0 <= x < 4096 ==> z[k][x] == 0
  {
    seq(n, _ => Bytes.Zeros(PAGE_SIZE))
  }

  const PAGE_SIZE: nat := 4096

  /** Every frame holds a whole page. */
  ghost predicate FullPages(frames: seq<Page>) {
    forall f :: 0 <= f < |frames| ==> |frames[f]| == PAGE_SIZE
  }

  lemma FullStored(frames: seq<Page>, f: nat, c: Page)
    requires FullPages(frames) && f < |frames| && |c| == PAGE_SIZE
    ensures FullPages(frames[f := c])
  {
  }

  lemma FullRun(frames: seq<Page>, f: nat, contents: seq<Page>)
    requires FullPages(frames) && FullPages(contents) && f + |contents| <= |frames|
    ensures FullPages(Overwrite(frames, f, contents))
  {
  }

  // ----- what a store does

  /** The page belongs to a region marked copy-on-write. */
  ghost predicate Shared(lists: RegionLists, p: nat, v: nat) {
    p in lists && Find(lists[p], v).Some? && Find(lists[p], v).value.flags.cow
  }

  /** The page belongs to a region that is writable or marked copy-on-write. */
  ghost predicate Granted(lists: RegionLists, p: nat, v: nat) {
    p in lists && Find(lists[p], v).Some? && (Find(lists[p], v).value.flags.write || Find(lists[p], v).value.flags.cow)
  }

  ghost predicate NoFree(refs: seq<nat>) {
    forall g :: 0 <= g < |refs| ==> refs[g] != 0
  }

  /** The page has to be copied before it can be written, and no frame is left for the copy. */
  ghost predicate Stuck(refs: seq<nat>, ts: Tables, p: nat, v: nat) {
    p in ts && v in ts[p] && !ts[p][v].write && ts[p][v].frame < |refs| && refs[ts[p][v].frame] > 1 && NoFree(refs)
  }

  /** The answer to a store. */
  ghost function StoreOutcome(lists: RegionLists, refs: seq<nat>, ts: Tables, p: nat, v: nat): Outcome {
    if !Granted(lists, p, v) then Fault else if Stuck(refs, ts, p, v) then NoMemory else Done
  }

  /** What everybody sees after a store, given the page tables before it. */
  ghost function AfterStore(s: map<nat, Space>, ts: Tables, p: nat, v: nat, offset: nat, b: Bytes.byte, o: Outcome): map<nat, Space> {
    if o.Done? && p in s && v in s[p]
    then Written(Regranted(s, p, v, true), ts, p, v, StoreByte(s[p][v].content, offset, b))
    else s
  }

  /** A store is answered, and changes memory, as it would if nothing were shared. */
  ghost predicate Fits(frames: seq<Page>, refs: seq<nat>, lists: RegionLists, ts: Tables, p: nat, v: nat, offset: nat, b: Bytes.byte)
    requires Shown(frames, lists, ts)
  {
    var s, op := Spaces(frames, lists, ts), StoreOp(p, v, offset, b);
    var r := Result(StoreOutcome(lists, refs, ts, p, v), 0);
    Agrees(s, op, r, 0) && AfterStore(s, ts, p, v, offset, b, r.outcome) == Apply(s, op, r)
  }

  /** Every store that could come next fits. */
  ghost predicate Faithful(frames: seq<Page>, refs: seq<nat>, lists: RegionLists, ts: Tables)
    requires Shown(frames, lists, ts)
  {
    forall p: nat, v: nat, offset: nat, b: Bytes.byte :: Fits(frames, refs, lists, ts, p, v, offset, b)
  }

  lemma SaneKeys(limit: nat, frames: seq<Page>, refs: seq<nat>, lists: RegionLists, ts: Tables, kib: map<nat, nat>)
    requires Sane(limit, frames, refs, lists, ts, kib)
    ensures lists.Keys == ts.Keys == kib.Keys && |refs| == |frames|
  {
  }

  /** The table, the regions and the view agree about a page. */
  lemma PageIs(limit: nat, frames: seq<Page>, refs: seq<nat>, lists: RegionLists, ts: Tables, kib: map<nat, nat>, p: nat, v: nat)
    requires Sane(limit, frames, refs, lists, ts, kib)
    ensures Shown(frames, lists, ts)
    ensures p in ts && v in ts[p] <==> p in lists && Find(lists[p], v).Some?
    ensures p in ts && v in ts[p] ==> ts[p][v].write == (Granted(lists, p, v) && !Shared(lists, p, v))
    ensures p in ts && v in ts[p] ==> p in Spaces(frames, lists, ts) && v in Spaces(frames, lists, ts)[p]
    ensures p in ts && v in ts[p] ==> ts[p][v].frame < |frames|
                                      && Spaces(frames, lists, ts)[p][v].content == frames[ts[p][v].frame]
                                      && Spaces(frames, lists, ts)[p][v].write == MayWrite(lists[p], v)
    ensures p in ts && v in ts[p] && ts[p][v].write ==> Regranted(Spaces(frames, lists, ts), p, v, true) == Spaces(frames, lists, ts)
  {
    hide Find, Users, Tiled, Total;
    SaneShown(limit, frames, refs, lists, ts, kib);
    if p in ts && v in ts[p] && ts[p][v].write {
      AlreadyGranted(Spaces(frames, lists, ts), p, v);
    }
  }

  /** A store in a state that keeps the rules of copy-on-write. */
  lemma StrictFits(limit: nat, frames: seq<Page>, refs: seq<nat>, lists: RegionLists, ts: Tables, kib: map<nat, nat>,
                   p: nat, v: nat, offset: nat, b: Bytes.byte)
    requires Sane(limit, frames, refs, lists, ts, kib) && Strict(lists, ts)
    ensures Shown(frames, lists, ts) && Fits(frames, refs, lists, ts, p, v, offset, b)
  {
    hide Sane, Isolated, Honest, Spaces, Find, Written, Exclusive, Regranted;
    SaneKeys(limit, frames, refs, lists, ts, kib);
    PageIs(limit, frames, refs, lists, ts, kib, p, v);
    SpaceKeys(frames, lists, ts, p);
    StrictPage(lists, ts, p, v);
    var s := Spaces(frames, lists, ts);
    if Writable(s, p, v) {
      AlreadyGranted(s, p, v);
      WrittenAlone(s, ts, p, v, StoreByte(s[p][v].content, offset, b));
    }
  }

  lemma SpaceKeys(frames: seq<Page>, lists: RegionLists, ts: Tables, p: nat)
    requires Shown(frames, lists, ts)
    ensures Spaces(frames, lists, ts).Keys == ts.Keys && (p in ts ==> Spaces(frames, lists, ts)[p].Keys == ts[p].Keys)
  {
  }

  lemma StrictPage(lists: RegionLists, ts: Tables, p: nat, v: nat)
    requires Strict(lists, ts)
    ensures p in ts && v in ts[p] && ts[p][v].write ==> Exclusive(ts, p, v)
    ensures Shared(lists, p, v) ==> MayWrite(lists[p], v)
  {
    hide Find, Exclusive;
  }

  /** A writable page that shares its frame: some store shows up in another page. */
  lemma LeakyStore(limit: nat, frames: seq<Page>, refs: seq<nat>, lists: RegionLists, ts: Tables, kib: map<nat, nat>,
                   p: nat, v: nat, q: nat, w: nat)
    requires Sane(limit, frames, refs, lists, ts, kib) && FullPages(frames) && p in ts && v in ts[p] && ts[p][v].write
    requires q in ts && w in ts[q] && (q, w) != (p, v) && ts[q][w].frame == ts[p][v].frame
    ensures Shown(frames, lists, ts) && exists b :: !Fits(frames, refs, lists, ts, p, v, 0, b)
  {
    hide Sane, Find, Regranted, Spaces, StoreByte;
    PageIs(limit, frames, refs, lists, ts, kib, p, v);
    PageIs(limit, frames, refs, lists, ts, kib, q, w);
    var s: map<nat, Space> := Spaces(frames, lists, ts);
    var c := s[p][v].content;
    var b: Bytes.byte := if c[0] == 0 then 1 else 0;
    OtherByte(c, b);
    var after: map<nat, Space> := AfterStore(s, ts, p, v, 0, b, Done);
    assert after[q][w].content == StoreByte(c, 0, b);
    assert Stored(s, p, v, 0, b)[q][w] == s[q][w];
    assert !Fits(frames, refs, lists, ts, p, v, 0, b);
  }

  lemma OtherByte(c: Page, b: Bytes.byte)
    requires |c| == PAGE_SIZE && b != c[0]
    ensures StoreByte(c, 0, b) != c
  {
    assert StoreByte(c, 0, b)[0] == b;
  }

  /** A marked page of a region that is not writable: stores are not refused. */
  lemma MarkedStore(limit: nat, frames: seq<Page>, refs: seq<nat>, lists: RegionLists, ts: Tables, kib: map<nat, nat>, p: nat, v: nat)
    requires Sane(limit, frames, refs, lists, ts, kib) && Shared(lists, p, v) && !MayWrite(lists[p], v)
    ensures Shown(frames, lists, ts) && !Fits(frames, refs, lists, ts, p, v, 0, 0)
  {
    hide Sane, Find, Spaces, Written;
    PageIs(limit, frames, refs, lists, ts, kib, p, v);
  }

  /** Sharing cannot be noticed by the next store, whatever it is, exactly when the rules of copy-on-write hold. */
  lemma FaithfulStates(limit: nat, frames: seq<Page>, refs: seq<nat>, lists: RegionLists, ts: Tables, kib: map<nat, nat>)
    requires Sane(limit, frames, refs, lists, ts, kib) && FullPages(frames)
    ensures Shown(frames, lists, ts) && (Faithful(frames, refs, lists, ts) <==> Strict(lists, ts))
  {
    hide Sane, FullPages, Fits, Find;
    SaneShown(limit, frames, refs, lists, ts, kib);
    if Strict(lists, ts) {
      forall p: nat, v: nat, offset: nat, b: Bytes.byte
        ensures Fits(frames, refs, lists, ts, p, v, offset, b)
      {
        StrictFits(limit, frames, refs, lists, ts, kib, p, v, offset, b);
      }
    } else if !Isolated(ts) {
      var p, v :| p in ts && v in ts[p] && ts[p][v].write && !Exclusive(ts, p, v);
      var q, w :| q in ts && w in ts[q] && ts[q][w].frame == ts[p][v].frame && !(q == p && w == v);
      LeakyStore(limit, frames, refs, lists, ts, kib, p, v, q, w);
    } else {
      var p, v: nat :| p in lists && Find(lists[p], v).Some? && Find(lists[p], v).value.flags.cow && !Find(lists[p], v).value.flags.write;
      MarkedStore(limit, frames, refs, lists, ts, kib, p, v);
    }
  }
}
