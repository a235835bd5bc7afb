/**
 * Taking pages away and changing their rights: one region at a time, only the pages asked for.
 */
module UnmapSteps {
  import opened Regions
  import opened PageTables
  import opened CopyOnWrite
  import opened ForkSteps

  /** A map without the pages from `lo` up to `hi`. */
  function Without<T>(t: map<nat, T>, lo: nat, hi: nat): (n: map<nat, T>)
    ensures forall v: nat :: v in n <==> v in t && !(lo <= v < hi)
    ensures forall v: nat :: v in n ==> n[v] == t[v]
  {
    map v | v in t && !(lo <= v < hi) :: t[v]
  }

  lemma WithoutNext<T>(t: map<nat, T>, lo: nat, v: nat)
    requires lo <= v
    ensures Without(t, lo, v + 1) == Without(t, lo, v) - {v}
    ensures v in t ==> v in Without(t, lo, v) && Without(t, lo, v)[v] == t[v]
  {
  }

  lemma WithoutNone<T>(t: map<nat, T>, lo: nat)
    ensures Without(t, lo, lo) == t
  {
  }

  lemma UnmapOneMore(refs: seq<nat>, ts: Tables, p: nat, t: Table, v: nat)
    requires p in ts && v in t && Counts(refs, ts[p := t])
    ensures t[v].frame < |refs| && refs[t[v].frame] > 0
    ensures Counts(refs[t[v].frame := refs[t[v].frame] - 1], ts[p := t - {v}])
  {
    hide Counts;
    UnmapOne(refs, ts[p := t], p, v);
    assert ts[p := t][p := t - {v}] == ts[p := t - {v}];
  }

  // ----- one region loses pages

  function CutList(rs: seq<Region>, k: nat, lo: nat, hi: nat): seq<Region>
    requires k < |rs| && rs[k].base <= lo <= hi <= End(rs[k])
  {
    Replace(rs, k, Parts(rs[k], lo, hi, []))
  }

  lemma CutProcess(limit: nat, rs: seq<Region>, t: Table, kib: nat, k: nat, lo: nat, hi: nat)
    requires Process(limit, rs, t, kib) && k < |rs| && rs[k].base <= lo <= hi <= End(rs[k])
    ensures kib >= 4 * (hi - lo) && Process(limit, CutList(rs, k, lo, hi), Without(t, lo, hi), kib - 4 * (hi - lo))
    ensures forall v: nat :: Find(CutList(rs, k, lo, hi), v) == if lo <= v < hi then None else Find(rs, v)
  {
    hide Find, Tiled, Total, CutList, Without;
    CutFind(limit, rs, k, lo, hi);
  }

  lemma CutFind(limit: nat, rs: seq<Region>, k: nat, lo: nat, hi: nat)
    requires Tiled(rs, limit) && k < |rs| && rs[k].base <= lo <= hi <= End(rs[k])
    ensures Tiled(CutList(rs, k, lo, hi), limit) && Total(CutList(rs, k, lo, hi)) == Total(rs) - (hi - lo)
    ensures forall v: nat :: Find(CutList(rs, k, lo, hi), v) == if lo <= v < hi then None else Find(rs, v)
  {
    hide Tiled, Total, Replace, Parts, Find;
    Rewrite(rs, k, lo, hi, [], limit);
    FindEmpty();
  }

  lemma FindEmpty()
    ensures forall v: nat :: Find([], v) == None
  {
  }

  lemma CutIsolated(ts: Tables, p: nat, lo: nat, hi: nat)
    requires Isolated(ts) && p in ts
    ensures Isolated(ts[p := Without(ts[p], lo, hi)])
  {
    hide Without;
    var n: Tables := ts[p := Without(ts[p], lo, hi)];
    forall q, w | q in n && w in n[q] && n[q][w].write
      ensures Exclusive(n, q, w)
    {
      assert Exclusive(ts, q, w);
    }
  }

  lemma CutHonest(lists: RegionLists, p: nat, rs: seq<Region>, lo: nat, hi: nat)
    requires Honest(lists) && p in lists
    requires forall v: nat :: Find(rs, v) == if lo <= v < hi then None else Find(lists[p], v)
    ensures Honest(lists[p := rs])
  {
    hide Find;
    var n: RegionLists := lists[p := rs];
    forall q, v: nat | q in n && Find(n[q], v).Some? && Find(n[q], v).value.flags.cow
      ensures Find(n[q], v).value.flags.write
    {
      if q == p {
        assert Find(lists[p], v) == Find(rs, v);
      }
    }
  }

  lemma CutSight(frames: seq<Page>, rs: seq<Region>, t: Table, rs': seq<Region>, lo: nat, hi: nat)
    requires forall v :: v in t ==> t[v].frame < |frames|
    requires forall v: nat :: v in t && !(lo <= v < hi) ==> MayWrite(rs', v) == MayWrite(rs, v)
    ensures See(frames, rs', Without(t, lo, hi)) == Without(See(frames, rs, t), lo, hi)
  {
    hide MayWrite;
    var t': Table := Without(t, lo, hi);
    forall v | v in t'
      ensures Sight(frames, rs', t', v) == Sight(frames, rs, t, v)
    {
    }
    hide Sight;
  }

  /** One region of `p` loses the pages from `lo` up to `hi`; nobody else notices. */
  lemma CutStep(limit: nat, frames: seq<Page>, refs: seq<nat>, lists: RegionLists, ts: Tables, kib: map<nat, nat>,
                p: nat, k: nat, lo: nat, hi: nat, refs': seq<nat>)
    requires Sane(limit, frames, refs, lists, ts, kib) && p in ts
    requires k < |lists[p]| && lists[p][k].base <= lo <= hi <= End(lists[p][k])
    requires |refs'| == |refs| && Counts(refs', ts[p := Without(ts[p], lo, hi)])
    ensures kib[p] >= 4 * (hi - lo)
    ensures var lists', ts' := lists[p := CutList(lists[p], k, lo, hi)], ts[p := Without(ts[p], lo, hi)];
            && Sane(limit, frames, refs', lists', ts', kib[p := kib[p] - 4 * (hi - lo)])
            && (Strict(lists, ts) ==> Strict(lists', ts'))
            && Shown(frames, lists, ts) && Shown(frames, lists', ts') && p in Spaces(frames, lists, ts)
            && Spaces(frames, lists', ts') == Put(Spaces(frames, lists, ts), p, Without(Spaces(frames, lists, ts)[p], lo, hi))
            && forall v: nat :: Find(lists'[p], v) == if lo <= v < hi then None else Find(lists[p], v)
  {
    hide Sane, Process, Counts, Isolated, Honest, Shown, Without, CutList, Find;
    SaneProcess(limit, frames, refs, lists, ts, kib, p);
    var rs: seq<Region>, t: Table := CutList(lists[p], k, lo, hi), Without(ts[p], lo, hi);
    CutProcess(limit, lists[p], ts[p], kib[p], k, lo, hi);
    SaneSize(limit, frames, refs, lists, ts, kib);
    OneProcess(limit, frames, refs, lists, ts, kib, p, frames, refs', rs, t, kib[p] - 4 * (hi - lo));
    if Strict(lists, ts) {
      CutIsolated(ts, p, lo, hi);
      CutHonest(lists, p, rs, lo, hi);
    }
    SaneShown(limit, frames, refs, lists, ts, kib);
    SaneShown(limit, frames, refs', lists[p := rs], ts[p := t], kib[p := kib[p] - 4 * (hi - lo)]);
    CutSeen(frames, lists, ts, p, rs, lo, hi);
  }

  lemma SaneSize(limit: nat, frames: seq<Page>, refs: seq<nat>, lists: RegionLists, ts: Tables, kib: map<nat, nat>)
    requires Sane(limit, frames, refs, lists, ts, kib)
    ensures |frames| == |refs| && Counts(refs, ts)
  {
  }

  lemma CutSeen(frames: seq<Page>, lists: RegionLists, ts: Tables, p: nat, rs: seq<Region>, lo: nat, hi: nat)
    requires Shown(frames, lists, ts) && p in ts && Shown(frames, lists[p := rs], ts[p := Without(ts[p], lo, hi)])
    requires forall v: nat :: Find(rs, v) == if lo <= v < hi then None else Find(lists[p], v)
    ensures p in Spaces(frames, lists, ts)
    ensures Spaces(frames, lists[p := rs], ts[p := Without(ts[p], lo, hi)]) ==
            Put(Spaces(frames, lists, ts), p, Without(Spaces(frames, lists, ts)[p], lo, hi))
  {
    hide Find, Without, Linked;
    CutSight(frames, lists[p], ts[p], rs, lo, hi);
    hide See, MayWrite;
    SpacesPut(frames, lists, ts, frames, lists[p := rs], ts[p := Without(ts[p], lo, hi)], p, Without(See(frames, lists[p], ts[p]), lo, hi));
  }

  // ----- one region changes rights

  /** Pages from `lo` up to `hi` of region `k` get new rights; what is copy-on-write stays so. */
  function ProtectedPart(r: Region, lo: nat, hi: nat, write: bool, other: nat): Region
    requires r.base <= lo <= hi <= End(r)
  {
    Region(lo, r.frame + (lo - r.base), hi - lo, Flags(write, r.flags.cow, other))
  }

  function ProtectList(rs: seq<Region>, k: nat, lo: nat, hi: nat, write: bool, other: nat): seq<Region>
    requires k < |rs| && rs[k].base <= lo < hi <= End(rs[k])
  {
    Replace(rs, k, Parts(rs[k], lo, hi, [ProtectedPart(rs[k], lo, hi, write, other)]))
  }

  /** The same page with other rights. */
  function Reflagged(i: Option<Info>, write: bool, other: nat): Option<Info> {
    if i.None? then None else Some(i.value.(flags := Flags(write, i.value.flags.cow, other)))
  }

  lemma ProtectFind(limit: nat, rs: seq<Region>, k: nat, lo: nat, hi: nat, write: bool, other: nat)
    requires Tiled(rs, limit) && k < |rs| && rs[k].base <= lo < hi <= End(rs[k])
    ensures Tiled(ProtectList(rs, k, lo, hi, write, other), limit) && Total(ProtectList(rs, k, lo, hi, write, other)) == Total(rs)
    ensures forall v: nat :: Find(ProtectList(rs, k, lo, hi, write, other), v) ==
                               (if lo <= v < hi then Reflagged(Find(rs, v), write, other) else Find(rs, v))
    ensures forall v: nat :: lo <= v < hi ==> Find(rs, v).Some?
  {
    hide Tiled, Total, Replace, Parts, Find;
    var m := ProtectedPart(rs[k], lo, hi, write, other);
    Rewrite(rs, k, lo, hi, [m], limit);
    forall v: nat
      ensures Find(ProtectList(rs, k, lo, hi, write, other), v) ==
              (if lo <= v < hi then Reflagged(Find(rs, v), write, other) else Find(rs, v))
      ensures lo <= v < hi ==> Find(rs, v).Some?
    {
      FindOne(m, v);
      if lo <= v < hi {
        FindSome(rs, k, v, limit);
      }
    }
  }

  lemma ProtectProcess(limit: nat, rs: seq<Region>, t: Table, kib: nat, k: nat, lo: nat, hi: nat, write: bool, other: nat)
    requires Process(limit, rs, t, kib) && k < |rs| && rs[k].base <= lo < hi <= End(rs[k])
    ensures var t': Table := t + RunTable(ProtectedPart(rs[k], lo, hi, write, other));
            && Process(limit, ProtectList(rs, k, lo, hi, write, other), t', kib)
            && t'.Keys == t.Keys && forall v :: v in t ==> t'[v].frame == t[v].frame
  {
    hide Find, Tiled, Total, ProtectList;
    ProtectFind(limit, rs, k, lo, hi, write, other);
    var m := ProtectedPart(rs[k], lo, hi, write, other);
    forall v: nat | lo <= v < hi
      ensures Find(rs, v) == Some(PageOf(rs[k], v)) && PageOf(m, v) == Reflagged(Find(rs, v), write, other).value
    {
      FindSome(rs, k, v, limit);
    }
    hide RunTable;
  }

  // ----- a range changes rights

  /** The address space with new rights on a range. */
  ghost function Reprotected(s: Space, lo: nat, hi: nat, write: bool, other: nat): Space {
    map v | v in s :: if lo <= v < hi then View(s[v].content, write, other) else s[v]
  }

  /** How many list nodes a protection change needs: one per region for pages before, one for pages after. */
  function SplitCount(rs: seq<Region>, lo: nat, hi: nat): nat {
    if rs == [] then 0 else NodesFor(rs[0], lo, hi) + SplitCount(rs[1..], lo, hi)
  }

  function Left(r: Region, lo: nat): nat {
    if lo > r.base then lo else r.base
  }

  function Right(r: Region, hi: nat): nat {
    if hi < End(r) then hi else End(r)
  }

  function NodesFor(r: Region, lo: nat, hi: nat): nat {
    if Left(r, lo) >= Right(r, hi) then 0
    else (if Left(r, lo) > r.base then 1 else 0) + (if Right(r, hi) < End(r) then 1 else 0)
  }

  /** The first `k` regions have their new rights, the others are as they were. */
  ghost predicate HalfDone(rs0: seq<Region>, rs: seq<Region>, k: nat, lo: nat, hi: nat, write: bool, other: nat) {
    && k <= |rs|
    && forall v: nat :: Find(rs, v) ==
         (if lo <= v < hi && Find(rs[..k], v).Some? then Reflagged(Find(rs0, v), write, other) else Find(rs0, v))
  }

  lemma HalfStart(rs: seq<Region>, lo: nat, hi: nat, write: bool, other: nat)
    ensures HalfDone(rs, rs, 0, lo, hi, write, other)
  {
    assert rs[..0] == [];
  }

  lemma HalfSkip(rs0: seq<Region>, rs: seq<Region>, k: nat, lo: nat, hi: nat, write: bool, other: nat)
    requires HalfDone(rs0, rs, k, lo, hi, write, other) && k < |rs| && Left(rs[k], lo) >= Right(rs[k], hi)
    ensures HalfDone(rs0, rs, k + 1, lo, hi, write, other)
  {
    hide Find;
    var n := rs[..k + 1];
    assert n == rs[..k] + [rs[k]];
    forall v: nat
      ensures lo <= v < hi ==> (Find(n, v).Some? <==> Find(rs[..k], v).Some?)
    {
      FindJoin(rs[..k], [rs[k]], v);
      FindOne(rs[k], v);
    }
  }

  lemma HalfStep(limit: nat, rs0: seq<Region>, rs: seq<Region>, k: nat, lo: nat, hi: nat, write: bool, other: nat)
    requires HalfDone(rs0, rs, k, lo, hi, write, other) && Tiled(rs, limit) && k < |rs| && Left(rs[k], lo) < Right(rs[k], hi)
    ensures var l, r := Left(rs[k], lo), Right(rs[k], hi);
            var parts := Parts(rs[k], l, r, [ProtectedPart(rs[k], l, r, write, other)]);
            var n := ProtectList(rs, k, l, r, write, other);
            && HalfDone(rs0, n, k + |parts|, lo, hi, write, other) && n[k + |parts|..] == rs[k + 1..]
            && |parts| == 1 + NodesFor(rs[k], lo, hi)
  {
    hide Find;
    var l, r := Left(rs[k], lo), Right(rs[k], hi);
    var m := ProtectedPart(rs[k], l, r, write, other);
    var parts := Parts(rs[k], l, r, [m]);
    var n := ProtectList(rs, k, l, r, write, other);
    var head := n[..k + |parts|];
    assert head == rs[..k] + parts;
    ProtectFind(limit, rs, k, l, r, write, other);
    forall v: nat
      ensures Find(n, v) == (if lo <= v < hi && Find(head, v).Some? then Reflagged(Find(rs0, v), write, other) else Find(rs0, v))
    {
      FindJoin(rs[..k], parts, v);
      PartsFind(rs[k], l, r, [m], v);
      FindOne(m, v);
      if Covers(rs[k], v) {
        FindNone(rs[..k], v);
      }
    }
  }

  lemma HalfEnd(rs0: seq<Region>, rs: seq<Region>, lo: nat, hi: nat, write: bool, other: nat)
    requires HalfDone(rs0, rs, |rs|, lo, hi, write, other)
    ensures forall v: nat :: Find(rs, v) == (if lo <= v < hi then Reflagged(Find(rs0, v), write, other) else Find(rs0, v))
  {
    hide Find;
    assert rs[..|rs|] == rs;
  }

  lemma ProtectSight(frames: seq<Page>, rs: seq<Region>, t: Table, rs': seq<Region>, t': Table, lo: nat, hi: nat, write: bool, other: nat)
    requires Linked(rs, t) && Linked(rs', t') && forall v :: v in t ==> t[v].frame < |frames|
    requires forall v: nat :: Find(rs', v) == (if lo <= v < hi then Reflagged(Find(rs, v), write, other) else Find(rs, v))
    ensures t'.Keys == t.Keys && (forall v :: v in t ==> t'[v].frame == t[v].frame)
    ensures See(frames, rs', t') == Reprotected(See(frames, rs, t), lo, hi, write, other)
  {
    hide Find, Linked, Sight;
    forall v: nat
      ensures v in t <==> v in t'
      ensures v in t ==> t'[v].frame == t[v].frame && t[v].frame < |frames|
      ensures v in t ==> Sight(frames, rs', t', v) ==
                           (if lo <= v < hi then View(Sight(frames, rs, t, v).content, write, other) else Sight(frames, rs, t, v))
    {
      ProtectPage(frames, rs, t, rs', t', lo, hi, write, other, v);
    }
  }

  lemma ProtectPage(frames: seq<Page>, rs: seq<Region>, t: Table, rs': seq<Region>, t': Table, lo: nat, hi: nat,
                    write: bool, other: nat, v: nat)
    requires Linked(rs, t) && Linked(rs', t') && (v in t ==> t[v].frame < |frames|)
    requires Find(rs', v) == (if lo <= v < hi then Reflagged(Find(rs, v), write, other) else Find(rs, v))
    ensures v in t <==> v in t'
    ensures v in t ==> t'[v].frame == t[v].frame
    ensures v in t ==> Sight(frames, rs', t', v) ==
                         (if lo <= v < hi then View(Sight(frames, rs, t, v).content, write, other) else Sight(frames, rs, t, v))
  {
    hide Find;
  }

  // ----- which changes of rights are safe

  /** Rights change on a range of one process; frames stay where they are. */
  ghost predicate Reshaped(lists: RegionLists, ts: Tables, lists': RegionLists, ts': Tables, p: nat, lo: nat, hi: nat, write: bool, other: nat) {
    && p in ts && p in lists && p in lists' && p in ts' && lists' == Put(lists, p, lists'[p]) && ts' == Put(ts, p, ts'[p])
    && Linked(lists[p], ts[p]) && Linked(lists'[p], ts'[p])
    && forall v: nat :: Find(lists'[p], v) == (if lo <= v < hi then Reflagged(Find(lists[p], v), write, other) else Find(lists[p], v))
  }

  lemma ReshapedPage(lists: RegionLists, ts: Tables, lists': RegionLists, ts': Tables, p: nat, lo: nat, hi: nat, write: bool, other: nat, v: nat)
    requires Reshaped(lists, ts, lists', ts', p, lo, hi, write, other)
    ensures v in ts'[p] <==> v in ts[p]
    ensures v in ts[p] ==> ts'[p][v].frame == ts[p][v].frame && Find(lists[p], v).Some?
    ensures v in ts[p] && lo <= v < hi ==> ts'[p][v].write == (write && !Find(lists[p], v).value.flags.cow)
    ensures v in ts[p] && !(lo <= v < hi) ==> ts'[p][v] == ts[p][v]
  {
    hide Find;
  }

  lemma SameExclusive(lists: RegionLists, ts: Tables, lists': RegionLists, ts': Tables, p: nat, lo: nat, hi: nat, write: bool, other: nat, q: nat, w: nat)
    requires Reshaped(lists, ts, lists', ts', p, lo, hi, write, other) && q in ts && w in ts[q]
    ensures q in ts' && w in ts'[q] && (Exclusive(ts', q, w) <==> Exclusive(ts, q, w))
  {
    hide Reshaped;
    ReshapedKeys(lists, ts, lists', ts', p, lo, hi, write, other);
    forall v: nat
      ensures v in ts'[p] <==> v in ts[p]
      ensures v in ts[p] ==> ts'[p][v].frame == ts[p][v].frame
    {
      ReshapedPage(lists, ts, lists', ts', p, lo, hi, write, other, v);
    }
    StillExclusive(ts, ts', q, w);
    StillExclusive(ts', ts, q, w);
  }

  lemma StillExclusive(ts: Tables, ts': Tables, q: nat, w: nat)
    requires ts'.Keys == ts.Keys && q in ts && w in ts[q]
    requires forall x :: x in ts ==> ts'[x].Keys == ts[x].Keys
    requires forall x, y :: x in ts && y in ts[x] ==> ts'[x][y].frame == ts[x][y].frame
    ensures Exclusive(ts, q, w) ==> Exclusive(ts', q, w)
  {
    if Exclusive(ts, q, w) {
      forall x, y | x in ts' && y in ts'[x] && ts'[x][y].frame == ts'[q][w].frame
        ensures x == q && y == w
      {
        assert y in ts[x] && ts[x][y].frame == ts[q][w].frame;
      }
    }
  }

  /** Giving the write right to pages that are neither marked nor alone on their frame breaks isolation; nothing else does. */
  ghost predicate SafeToWrite(rs: seq<Region>, ts: Tables, p: nat, lo: nat, hi: nat)
    requires p in ts
  {
    forall v: nat :: lo <= v < hi && v in ts[p] && Find(rs, v).Some? && !Find(rs, v).value.flags.cow ==> Exclusive(ts, p, v)
  }

  ghost predicate NoneMarked(rs: seq<Region>, lo: nat, hi: nat) {
    forall v: nat :: lo <= v < hi && Find(rs, v).Some? ==> !Find(rs, v).value.flags.cow
  }

  lemma ProtectIsolated(lists: RegionLists, ts: Tables, lists': RegionLists, ts': Tables, p: nat, lo: nat, hi: nat, write: bool, other: nat)
    requires Reshaped(lists, ts, lists', ts', p, lo, hi, write, other) && Isolated(ts)
    ensures Isolated(ts') <==> !write || SafeToWrite(lists[p], ts, p, lo, hi)
  {
    hide Reshaped, Exclusive, Find;
    ReshapedKeys(lists, ts, lists', ts', p, lo, hi, write, other);
    if !write || SafeToWrite(lists[p], ts, p, lo, hi) {
      forall q, w | q in ts' && w in ts'[q] && ts'[q][w].write
        ensures Exclusive(ts', q, w)
      {
        ReshapedPage(lists, ts, lists', ts', p, lo, hi, write, other, w);
        SameExclusive(lists, ts, lists', ts', p, lo, hi, write, other, q, w);
      }
    } else {
      var v: nat :| lo <= v < hi && v in ts[p] && Find(lists[p], v).Some? && !Find(lists[p], v).value.flags.cow && !Exclusive(ts, p, v);
      ReshapedPage(lists, ts, lists', ts', p, lo, hi, write, other, v);
      SameExclusive(lists, ts, lists', ts', p, lo, hi, write, other, p, v);
    }
  }

  lemma ReshapedKeys(lists: RegionLists, ts: Tables, lists': RegionLists, ts': Tables, p: nat, lo: nat, hi: nat, write: bool, other: nat)
    requires Reshaped(lists, ts, lists', ts', p, lo, hi, write, other)
    ensures p in ts && p in lists && p in lists' && ts'.Keys == ts.Keys && lists'.Keys == lists.Keys
    ensures forall q :: q in ts && q != p ==> ts'[q] == ts[q]
    ensures forall q :: q in lists && q != p ==> lists'[q] == lists[q]
  {
  }

  /** Taking the write right from marked pages leaves marks that a fault would turn back into the right. */
  lemma ProtectHonest(lists: RegionLists, ts: Tables, lists': RegionLists, ts': Tables, p: nat, lo: nat, hi: nat, write: bool, other: nat)
    requires Reshaped(lists, ts, lists', ts', p, lo, hi, write, other) && Honest(lists)
    ensures Honest(lists') <==> write || NoneMarked(lists[p], lo, hi)
  {
    hide Find, Linked;
    if write || NoneMarked(lists[p], lo, hi) {
      forall q, v: nat | q in lists' && Find(lists'[q], v).Some? && Find(lists'[q], v).value.flags.cow
        ensures Find(lists'[q], v).value.flags.write
      {
        if q == p {
          assert Find(lists[p], v).Some?;
        }
      }
    } else {
      var v: nat :| lo <= v < hi && Find(lists[p], v).Some? && Find(lists[p], v).value.flags.cow;
      assert Find(lists'[p], v).Some?;
    }
  }
}
