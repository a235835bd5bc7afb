/**
 * The steps of fork and of new mappings: one run of pages at a time joins an address space.
 */
module ForkSteps {
  import opened Regions
  import opened PageTables
  import opened CopyOnWrite

  /** The page table entries of one region. */
  function RunTable(r: Region): (t: Table)
    ensures forall v: nat :: v in t <==> Covers(r, v)
    ensures forall v: nat :: v in t ==> t[v] == PteOf(PageOf(r, v))
  {
    map v: nat | r.base <= v < End(r) :: PteOf(PageOf(r, v))
  }

  /** The first `n` pages of a region. */
  function FirstPages(r: Region, n: nat): Region {
    r.(pages := n)
  }

  lemma RunGrows(t: Table, r: Region, i: nat)
    ensures t + RunTable(FirstPages(r, i + 1)) == Put(t + RunTable(FirstPages(r, i)), r.base + i, PteOf(PageOf(r.(pages := i + 1), r.base + i)))
  {
    hide PteOf;
  }

  lemma RunEmpty(t: Table, r: Region)
    ensures t + RunTable(FirstPages(r, 0)) == t
  {
  }

  /** What a region becomes when its pages are shared. */
  function Marked(r: Region): Region {
    r.(flags := r.flags.(cow := r.flags.cow || r.flags.write))
  }

  // ----- the parent

  lemma MarkFind(rs: seq<Region>, k: nat, v: nat, limit: nat)
    requires Tiled(rs, limit) && k < |rs|
    ensures Find(rs[k := Marked(rs[k])], v) == if Covers(rs[k], v) then Some(PageOf(Marked(rs[k]), v)) else Find(rs, v)
    ensures Covers(rs[k], v) ==> Find(rs, v) == Some(PageOf(rs[k], v))
    ensures MayWrite(rs[k := Marked(rs[k])], v) == MayWrite(rs, v)
  {
    var m := Marked(rs[k]);
    assert rs[k := m] == Replace(rs, k, [m]);
    ReplaceFind(rs, k, [m], v, limit);
    FindOne(m, v);
    if Covers(rs[k], v) {
      FindSome(rs, k, v, limit);
    }
    hide Find;
  }

  lemma MarkTotal(rs: seq<Region>, k: nat)
    requires k < |rs|
    ensures Total(rs[k := Marked(rs[k])]) == Total(rs)
  {
    assert rs[k := Marked(rs[k])] == Replace(rs, k, [Marked(rs[k])]);
    ReplaceTotal(rs, k, [Marked(rs[k])]);
  }

  /** Marking a region takes the write right from its pages and changes nothing a reader sees. */
  lemma MarkProcess(limit: nat, rs: seq<Region>, t: Table, kib: nat, k: nat)
    requires Process(limit, rs, t, kib) && k < |rs|
    ensures Process(limit, rs[k := Marked(rs[k])], t + RunTable(Marked(rs[k])), kib)
    ensures (t + RunTable(Marked(rs[k]))).Keys == t.Keys
    ensures forall v :: v in t ==> (t + RunTable(Marked(rs[k])))[v].frame == t[v].frame
    ensures forall v :: v in t ==> (t + RunTable(Marked(rs[k])))[v].other == t[v].other
    ensures forall v: nat :: MayWrite(rs[k := Marked(rs[k])], v) == MayWrite(rs, v)
  {
    hide Find, MayWrite, Total;
    var m := Marked(rs[k]);
    MarkTotal(rs, k);
    forall v: nat
      ensures Find(rs[k := m], v) == (if Covers(rs[k], v) then Some(PageOf(m, v)) else Find(rs, v))
      ensures Covers(rs[k], v) ==> Find(rs, v) == Some(PageOf(rs[k], v))
      ensures MayWrite(rs[k := m], v) == MayWrite(rs, v)
    {
      MarkFind(rs, k, v, limit);
    }
  }

  // ----- the new run

  lemma AddProcess(limit: nat, rs: seq<Region>, t: Table, kib: nat, r: Region)
    requires Process(limit, rs, t, kib) && r.pages > 0 && End(r) < limit && Free(rs, r.base, r.pages)
    ensures Process(limit, [r] + rs, t + RunTable(r), kib + 4 * r.pages)
    ensures forall v: nat :: Find([r] + rs, v) == if Covers(r, v) then Some(PageOf(r, v)) else Find(rs, v)
    ensures forall v: nat :: Covers(r, v) ==> v !in t && Find(rs, v) == None
  {
    FreeMeans(rs, r.base, r.pages, limit);
    assert ([r] + rs)[1..] == rs;
    AddTiled(limit, rs, r);
    hide Tiled, Total;
    forall v: nat | Covers(r, v)
      ensures v !in t && Find(rs, v) == None
    {
      Unmapped(rs, t, v);
    }
  }

  lemma Unmapped(rs: seq<Region>, t: Table, v: nat)
    requires Linked(rs, t)
    ensures Find(rs, v) == None <==> v !in t
  {
    hide Find;
  }

  lemma AddTiled(limit: nat, rs: seq<Region>, r: Region)
    requires Tiled(rs, limit) && r.pages > 0 && End(r) < limit && Free(rs, r.base, r.pages)
    ensures Tiled([r] + rs, limit)
  {
  }

  lemma MarkedFree(rs: seq<Region>, k: nat, cs: seq<Region>, limit: nat)
    requires Tiled(rs, limit) && k < |rs| && Tiled(cs, limit)
    requires forall v: nat :: Find(cs, v) == Find(rs[..k], v)
    ensures Free(cs, rs[k].base, rs[k].pages)
  {
    hide Find;
    forall v: nat | Covers(rs[k], v)
      ensures Find(cs, v) == None
    {
      FindNone(rs[..k], v);
    }
    FreeMeans(cs, rs[k].base, rs[k].pages, limit);
  }

  // ----- sharing one region

  /** Both tables after parent `p` shared region `r`, not writable any more, with child `c`. */
  function SharedTables(ts: Tables, p: nat, c: nat, r: Region): (n: Tables)
    requires p in ts && c in ts
    ensures n.Keys == ts.Keys
  {
    ts[p := ts[p] + RunTable(r)][c := ts[c] + RunTable(r)]
  }

  lemma ShareIsolated(ts: Tables, p: nat, c: nat, r: Region)
    requires Isolated(ts) && p in ts && c in ts && p != c && (r.flags.write ==> r.flags.cow)
    requires forall v: nat :: Covers(r, v) ==> v in ts[p] && ts[p][v].frame == PageOf(r, v).frame
    ensures Isolated(SharedTables(ts, p, c, r))
  {
    var n: Tables := SharedTables(ts, p, c, r);
    forall q, w | q in n && w in n[q] && n[q][w].write
      ensures Exclusive(n, q, w)
    {
      assert w in ts[q] && n[q][w] == ts[q][w];
      assert Exclusive(ts, q, w);
      forall x, y | x in n && y in n[x] && n[x][y].frame == n[q][w].frame
        ensures x == q && y == w
      {
        if (x == p || x == c) && Covers(r, y) {
          assert ts[p][y].frame == ts[q][w].frame;
        }
      }
    }
  }

  lemma ShareHonest(lists: RegionLists, p: nat, c: nat, k: nat, limit: nat)
    requires Honest(lists) && p in lists && c in lists && p != c && Tiled(lists[p], limit) && k < |lists[p]|
    ensures Honest(lists[p := lists[p][k := Marked(lists[p][k])]][c := [Marked(lists[p][k])] + lists[c]])
  {
    var rs, m := lists[p], Marked(lists[p][k]);
    var n: RegionLists := lists[p := rs[k := m]][c := [m] + lists[c]];
    forall q, v: nat | q in n && Find(n[q], v).Some? && Find(n[q], v).value.flags.cow
      ensures Find(n[q], v).value.flags.write
    {
      MarkFind(rs, k, v, limit);
      HeadFind(m, lists[c], v);
      hide Find;
      if q == p && Covers(m, v) {
        assert Find(rs, v) == Some(PageOf(rs[k], v));
      } else if q == c && Covers(m, v) {
        assert Find(rs, v) == Some(PageOf(rs[k], v));
      }
    }
  }

  lemma HeadFind(r: Region, rs: seq<Region>, v: nat)
    ensures Find([r] + rs, v) == if Covers(r, v) then Some(PageOf(r, v)) else Find(rs, v)
  {
    assert ([r] + rs)[1..] == rs;
  }

  /** The child has what the parent's first regions have, one more each time. */
  lemma ShareFind(rs: seq<Region>, cs: seq<Region>, k: nat, v: nat, limit: nat)
    requires Tiled(rs, limit) && k < |rs| && Find(cs, v) == Find(rs[..k], v)
    ensures Find([Marked(rs[k])] + cs, v) == Find(rs[k := Marked(rs[k])][..k + 1], v)
  {
    var m := Marked(rs[k]);
    HeadFind(m, cs, v);
    assert rs[k := m][..k + 1] == rs[..k] + [m];
    FindJoin(rs[..k], [m], v);
    FindOne(m, v);
    if Covers(m, v) {
      FindNone(rs[..k], v);
    }
  }

  /** Tables that follow region lists with the same pages are the same. */
  lemma SameTables(rs: seq<Region>, t: Table, rs': seq<Region>, t': Table)
    requires Linked(rs, t) && Linked(rs', t') && forall v: nat :: Find(rs', v) == Find(rs, v)
    ensures t' == t
  {
    hide Find;
  }

  /** Every process but those named sees what it saw. */
  ghost predicate StillSeen(frames: seq<Page>, lists: RegionLists, ts: Tables, lists': RegionLists, ts': Tables, but: set<nat>) {
    && Shown(frames, lists, ts) && Shown(frames, lists', ts') && ts.Keys <= ts'.Keys
    && forall q :: q in ts && q !in but ==> See(frames, lists'[q], ts'[q]) == See(frames, lists[q], ts[q])
  }

  /** The parent's region `k` is marked, and heads the child's list. */
  function SharedLists(lists: RegionLists, p: nat, c: nat, k: nat): (n: RegionLists)
    requires p in lists && c in lists && k < |lists[p]| && p != c
    ensures n.Keys == lists.Keys && |n[p]| == |lists[p]|
  {
    lists[p := lists[p][k := Marked(lists[p][k])]][c := [Marked(lists[p][k])] + lists[c]]
  }

  /** The state after region `k` of parent `p` is shared with child `c`. */
  lemma ShareStep(limit: nat, frames: seq<Page>, refs: seq<nat>, lists: RegionLists, ts: Tables, kib: map<nat, nat>,
                  p: nat, c: nat, k: nat, refs': seq<nat>)
    requires Sane(limit, frames, refs, lists, ts, kib)
    requires p in ts && c in ts && p != c && k < |lists[p]| && (forall v: nat :: Find(lists[c], v) == Find(lists[p][..k], v))
    requires |refs'| == |refs| && Counts(refs', SharedTables(ts, p, c, Marked(lists[p][k])))
    ensures var lists', ts' := SharedLists(lists, p, c, k), SharedTables(ts, p, c, Marked(lists[p][k]));
            && Sane(limit, frames, refs', lists', ts', kib[c := kib[c] + 4 * lists[p][k].pages])
            && (Strict(lists, ts) ==> Strict(lists', ts')) && (forall v: nat :: Find(lists'[c], v) == Find(lists'[p][..k + 1], v))
            && StillSeen(frames, lists, ts, lists', ts', {c})
  {
    hide Sane, Counts, Process, Isolated, Honest, Find, Shown, StillSeen, RunTable, SharedTables;
    SaneProcess(limit, frames, refs, lists, ts, kib, p);
    var rs, m, cs := lists[p], Marked(lists[p][k]), lists[c];
    var lists': RegionLists, ts': Tables := SharedLists(lists, p, c, k), SharedTables(ts, p, c, m);
    var kib' := kib[c := kib[c] + 4 * m.pages];
    ShareSane(limit, frames, refs, lists, ts, kib, p, c, k, refs');
    SharePages(limit, rs, ts[p], kib[p], k);
    TiledList(limit, rs, ts[p], kib[p]);
    if Strict(lists, ts) {
      ShareIsolated(ts, p, c, m);
      ShareHonest(lists, p, c, k, limit);
    }
    forall v: nat
      ensures Find([m] + cs, v) == Find(rs[k := m][..k + 1], v)
    {
      ShareFind(rs, cs, k, v, limit);
    }
    SaneShown(limit, frames, refs, lists, ts, kib);
    SaneShown(limit, frames, refs', lists', ts', kib');
    ShareStill(limit, frames, lists, ts, p, c, k, kib[p]);
  }

  lemma SaneProcess(limit: nat, frames: seq<Page>, refs: seq<nat>, lists: RegionLists, ts: Tables, kib: map<nat, nat>, p: nat)
    requires Sane(limit, frames, refs, lists, ts, kib) && p in ts
    ensures p in lists && p in kib && Process(limit, lists[p], ts[p], kib[p])
    ensures lists.Keys == ts.Keys == kib.Keys
  {
  }

  lemma ShareSane(limit: nat, frames: seq<Page>, refs: seq<nat>, lists: RegionLists, ts: Tables, kib: map<nat, nat>,
                  p: nat, c: nat, k: nat, refs': seq<nat>)
    requires Sane(limit, frames, refs, lists, ts, kib)
    requires p in ts && c in ts && p != c && k < |lists[p]| && (forall v: nat :: Find(lists[c], v) == Find(lists[p][..k], v))
    requires |refs'| == |refs| && Counts(refs', SharedTables(ts, p, c, Marked(lists[p][k])))
    ensures Sane(limit, frames, refs', SharedLists(lists, p, c, k), SharedTables(ts, p, c, Marked(lists[p][k])),
                 kib[c := kib[c] + 4 * lists[p][k].pages])
  {
    hide Counts, Process, Find, RunTable;
    ShareProcesses(limit, frames, lists[p], ts[p], kib[p], k, lists[c], ts[c], kib[c]);
  }

  lemma ShareStill(limit: nat, frames: seq<Page>, lists: RegionLists, ts: Tables, p: nat, c: nat, k: nat, kib: nat)
    requires Shown(frames, lists, ts) && p in ts && c in ts && p != c && k < |lists[p]| && Process(limit, lists[p], ts[p], kib)
    requires Shown(frames, SharedLists(lists, p, c, k), SharedTables(ts, p, c, Marked(lists[p][k])))
    ensures StillSeen(frames, lists, ts, SharedLists(lists, p, c, k), SharedTables(ts, p, c, Marked(lists[p][k])), {c})
  {
    hide See, RunTable, Process;
    ShareSight(limit, frames, lists[p], ts[p], kib, k);
  }

  lemma TiledList(limit: nat, rs: seq<Region>, t: Table, kib: nat)
    requires Process(limit, rs, t, kib)
    ensures Tiled(rs, limit)
  {
  }

  lemma ShareProcesses(limit: nat, frames: seq<Page>, rs: seq<Region>, t: Table, kib: nat, k: nat, cs: seq<Region>, ct: Table, ckib: nat)
    requires Process(limit, rs, t, kib) && Process(limit, cs, ct, ckib) && k < |rs|
    requires forall v: nat :: Find(cs, v) == Find(rs[..k], v)
    ensures var m := Marked(rs[k]);
            Process(limit, rs[k := m], t + RunTable(m), kib) && Process(limit, [m] + cs, ct + RunTable(m), ckib + 4 * m.pages)
  {
    hide Find, Linked, Total, RunTable;
    MarkProcess(limit, rs, t, kib, k);
    MarkedFree(rs, k, cs, limit);
    AddProcess(limit, cs, ct, ckib, Marked(rs[k]));
  }

  lemma SharePages(limit: nat, rs: seq<Region>, t: Table, kib: nat, k: nat)
    requires Process(limit, rs, t, kib) && k < |rs|
    ensures forall v: nat :: Covers(rs[k], v) ==> v in t && t[v] == PteOf(PageOf(rs[k], v))
    ensures rs[k].pages > 0
  {
    hide Find;
    forall v: nat | Covers(rs[k], v)
      ensures v in t && t[v] == PteOf(PageOf(rs[k], v))
    {
      FindSome(rs, k, v, limit);
    }
  }

  lemma ShareSight(limit: nat, frames: seq<Page>, rs: seq<Region>, t: Table, kib: nat, k: nat)
    requires Process(limit, rs, t, kib) && k < |rs| && forall v :: v in t ==> t[v].frame < |frames|
    ensures var m := Marked(rs[k]);
            var t': Table := t + RunTable(m);
            (forall v :: v in t' ==> v in t && t'[v].frame < |frames|) && See(frames, rs[k := m], t') == See(frames, rs, t)
  {
    hide Process, MayWrite, RunTable, Find;
    MarkProcess(limit, rs, t, kib, k);
    SameSight(frames, rs, t, frames, rs[k := Marked(rs[k])], t + RunTable(Marked(rs[k])));
  }

  // ----- a run of fresh frames

  /** `contents` written to consecutive frames. */
  function Overwrite(frames: seq<Page>, f: nat, contents: seq<Page>): (n: seq<Page>)
    requires f + |contents| <= |frames|
    ensures |n| == |frames|
    ensures forall g :: 0 <= g < |n| ==> n[g] == if f <= g < f + |contents| then contents[g - f] else frames[g]
  {
    frames[..f] + contents + frames[f + |contents|..]
  }

  /** The address space with new pages. */
  ghost function Extended(s: Space, base: nat, contents: seq<Page>, write: bool, other: nat): Space {
    s + FreshViews(base, contents, write, other)
  }

  function FreshView(base: nat, contents: seq<Page>, write: bool, other: nat, v: nat): View
    requires base <= v < base + |contents|
  {
    View(contents[v - base], write, other)
  }

  ghost function FreshViews(base: nat, contents: seq<Page>, write: bool, other: nat): (s: Space)
    ensures forall v: nat :: v in s <==> base <= v < base + |contents|
    ensures forall v: nat :: v in s ==> s[v] == FreshView(base, contents, write, other, v)
  {
    map v: nat | base <= v < base + |contents| :: FreshView(base, contents, write, other, v)
  }

  ghost predicate FreshRun(refs: seq<nat>, r: Region, contents: seq<Page>) {
    && r.frame + r.pages <= |refs| && |contents| == r.pages && !r.flags.cow
    && forall g :: r.frame <= g < r.frame + r.pages ==> refs[g] == 0
  }

  lemma FreshUnused(refs: seq<nat>, ts: Tables, r: Region, contents: seq<Page>)
    requires Counts(refs, ts) && FreshRun(refs, r, contents)
    ensures forall q, w :: q in ts && w in ts[q] ==> ts[q][w].frame < |refs| && !(r.frame <= ts[q][w].frame < r.frame + r.pages)
  {
    hide Users;
    forall q, w | q in ts && w in ts[q]
      ensures !(r.frame <= ts[q][w].frame < r.frame + r.pages)
    {
      NoUser(refs, ts, q, w);
    }
  }

  lemma FreshIsolated(refs: seq<nat>, ts: Tables, p: nat, r: Region, contents: seq<Page>)
    requires Counts(refs, ts) && FreshRun(refs, r, contents) && Isolated(ts) && p in ts
    ensures Isolated(ts[p := ts[p] + RunTable(r)])
  {
    hide Counts;
    FreshUnused(refs, ts, r, contents);
    var n: Tables := ts[p := ts[p] + RunTable(r)];
    forall q, w | q in n && w in n[q] && n[q][w].write
      ensures Exclusive(n, q, w)
    {
      if !(q == p && Covers(r, w)) {
        assert Exclusive(ts, q, w);
      }
    }
  }

  lemma FreshHonest(lists: RegionLists, p: nat, r: Region)
    requires Honest(lists) && p in lists && !r.flags.cow
    ensures Honest(lists[p := [r] + lists[p]])
  {
    var n: RegionLists := lists[p := [r] + lists[p]];
    forall q, v: nat | q in n && Find(n[q], v).Some? && Find(n[q], v).value.flags.cow
      ensures Find(n[q], v).value.flags.write
    {
      HeadFind(r, lists[p], v);
      hide Find;
    }
  }

  /** The owner of a fresh run sees it in addition to what it saw. */
  lemma FreshSight(limit: nat, frames: seq<Page>, rs: seq<Region>, t: Table, kib: nat, r: Region, contents: seq<Page>)
    requires Process(limit, rs, t, kib) && r.pages > 0 && End(r) < limit && Free(rs, r.base, r.pages)
    requires r.frame + r.pages <= |frames| && |contents| == r.pages
    requires forall v :: v in t ==> t[v].frame < |frames| && !(r.frame <= t[v].frame < r.frame + r.pages)
    ensures var frames' := Overwrite(frames, r.frame, contents);
            && (forall v :: v in t + RunTable(r) ==> (t + RunTable(r))[v].frame < |frames'|)
            && See(frames', [r] + rs, t + RunTable(r)) == Extended(See(frames, rs, t), r.base, contents, r.flags.write, r.flags.other)
  {
    hide Find, Process, Overwrite, Free, RunTable, FreshViews;
    AddProcess(limit, rs, t, kib, r);
    var frames': seq<Page>, t': Table := Overwrite(frames, r.frame, contents), t + RunTable(r);
    forall v | v in t'
      ensures Sight(frames', [r] + rs, t', v) ==
              if Covers(r, v) then FreshView(r.base, contents, r.flags.write, r.flags.other, v) else Sight(frames, rs, t, v)
    {
      assert Find([r] + rs, v) == if Covers(r, v) then Some(PageOf(r, v)) else Find(rs, v);
    }
    SeeRun(frames, rs, t, r, frames', [r] + rs, t', contents);
  }

  lemma SeeRun(frames: seq<Page>, rs: seq<Region>, t: Table, r: Region, frames': seq<Page>, rs': seq<Region>, t': Table, contents: seq<Page>)
    requires (forall v :: v in t ==> t[v].frame < |frames|) && (forall v :: v in t' ==> t'[v].frame < |frames'|)
    requires t' == t + RunTable(r) && |contents| == r.pages
    requires forall v :: v in t' && Covers(r, v) ==> Sight(frames', rs', t', v) == FreshView(r.base, contents, r.flags.write, r.flags.other, v)
    requires forall v :: v in t && !Covers(r, v) ==> Sight(frames', rs', t', v) == Sight(frames, rs, t, v)
    ensures See(frames', rs', t') == Extended(See(frames, rs, t), r.base, contents, r.flags.write, r.flags.other)
  {
    hide Sight, RunTable, FreshView, FreshViews;
  }

  /** A process gets a run of fresh frames: nothing else changes for anybody. */
  lemma FreshStep(limit: nat, frames: seq<Page>, refs: seq<nat>, lists: RegionLists, ts: Tables, kib: map<nat, nat>,
                  p: nat, r: Region, contents: seq<Page>, refs': seq<nat>)
    requires Sane(limit, frames, refs, lists, ts, kib) && p in ts
    requires FreshRun(refs, r, contents) && r.pages > 0 && End(r) < limit && Free(lists[p], r.base, r.pages)
    requires |refs'| == |refs| && Counts(refs', ts[p := ts[p] + RunTable(r)])
    ensures var frames' := Overwrite(frames, r.frame, contents);
            var lists', ts' := lists[p := [r] + lists[p]], ts[p := ts[p] + RunTable(r)];
            && Sane(limit, frames', refs', lists', ts', kib[p := kib[p] + 4 * r.pages])
            && (Strict(lists, ts) ==> Strict(lists', ts'))
            && Shown(frames, lists, ts) && Shown(frames', lists', ts') && p in Spaces(frames, lists, ts)
            && Spaces(frames', lists', ts') ==
               Put(Spaces(frames, lists, ts), p, Extended(Spaces(frames, lists, ts)[p], r.base, contents, r.flags.write, r.flags.other))
  {
    hide Sane, Process, Counts, Isolated, Honest, Shown, Free, FreshRun, RunTable, Overwrite, Extended;
    SaneProcess(limit, frames, refs, lists, ts, kib, p);
    FreshSize(limit, frames, refs, lists, ts, kib, r, contents);
    var frames', rs: seq<Region>, t: Table := Overwrite(frames, r.frame, contents), [r] + lists[p], ts[p] + RunTable(r);
    AddProcess(limit, lists[p], ts[p], kib[p], r);
    OneProcess(limit, frames, refs, lists, ts, kib, p, frames', refs', rs, t, kib[p] + 4 * r.pages);
    if Strict(lists, ts) {
      FreshIsolated(refs, ts, p, r, contents);
      FreshHonest(lists, p, r);
    }
    SaneShown(limit, frames, refs, lists, ts, kib);
    SaneShown(limit, frames', refs', lists[p := rs], ts[p := t], kib[p := kib[p] + 4 * r.pages]);
    FreshSeen(limit, frames, refs, lists, ts, kib[p], p, r, contents);
  }

  lemma FreshSize(limit: nat, frames: seq<Page>, refs: seq<nat>, lists: RegionLists, ts: Tables, kib: map<nat, nat>,
                  r: Region, contents: seq<Page>)
    requires Sane(limit, frames, refs, lists, ts, kib) && FreshRun(refs, r, contents)
    ensures |frames| == |refs| && Counts(refs, ts) && r.frame + |contents| <= |frames| && |contents| == r.pages && !r.flags.cow
  {
  }

  lemma FreshSeen(limit: nat, frames: seq<Page>, refs: seq<nat>, lists: RegionLists, ts: Tables, kib: nat,
                  p: nat, r: Region, contents: seq<Page>)
    requires Counts(refs, ts) && |refs| == |frames| && FreshRun(refs, r, contents) && p in ts && p in lists
    requires r.pages > 0 && End(r) < limit && Free(lists[p], r.base, r.pages) && Process(limit, lists[p], ts[p], kib)
    requires Shown(frames, lists, ts)
    requires Shown(Overwrite(frames, r.frame, contents), lists[p := [r] + lists[p]], ts[p := ts[p] + RunTable(r)])
    ensures p in Spaces(frames, lists, ts)
    ensures Spaces(Overwrite(frames, r.frame, contents), lists[p := [r] + lists[p]], ts[p := ts[p] + RunTable(r)]) ==
            Put(Spaces(frames, lists, ts), p, Extended(Spaces(frames, lists, ts)[p], r.base, contents, r.flags.write, r.flags.other))
  {
    hide Process, Counts, Free, RunTable, Overwrite, Extended, Linked, MayWrite;
    var frames', lists': RegionLists, ts': Tables :=
      Overwrite(frames, r.frame, contents), lists[p := [r] + lists[p]], ts[p := ts[p] + RunTable(r)];
    FreshUnused(refs, ts, r, contents);
    FreshSight(limit, frames, lists[p], ts[p], kib, r, contents);
    forall q | q in ts && q != p
      ensures See(frames', lists'[q], ts'[q]) == See(frames, lists[q], ts[q])
    {
      SameSight(frames, lists[q], ts[q], frames', lists[q], ts[q]);
    }
    hide See;
    SpacesPut(frames, lists, ts, frames', lists', ts', p,
              Extended(See(frames, lists[p], ts[p]), r.base, contents, r.flags.write, r.flags.other));
  }
}
