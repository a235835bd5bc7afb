/**
 * The steps of copy-on-write: a fault gives the writer a frame of its own, and a store shows in
 * exactly the pages that map the frame it writes to.
 */
module CopyOnWrite {
  import Bytes
  import opened Regions
  import opened PageTables

  lemma OneProcess(limit: nat, frames: seq<Page>, refs: seq<nat>, lists: RegionLists, ts: Tables, kib: map<nat, nat>,
                   p: nat, frames': seq<Page>, refs': seq<nat>, rs: seq<Region>, t: Table, k: nat)
    requires Sane(limit, frames, refs, lists, ts, kib) && |refs'| == |frames'| && Counts(refs', ts[p := t])
    requires Process(limit, rs, t, k)
    ensures Sane(limit, frames', refs', lists[p := rs], ts[p := t], kib[p := k])
  {
    hide Process, Counts;
  }

  function Upgraded(flags: Flags): Flags {
    flags.(cow := false, write := true)
  }

  /** One page of region `k` gets its own region, with a new frame and full rights. */
  function SplitPage(rs: seq<Region>, k: nat, v: nat, frame: nat): seq<Region>
    requires k < |rs| && Covers(rs[k], v)
  {
    Replace(rs, k, Parts(rs[k], v, v + 1, [Region(v, frame, 1, Upgraded(rs[k].flags))]))
  }

  lemma SplitProcess(limit: nat, rs: seq<Region>, t: Table, kib: nat, k: nat, v: nat, frame: nat)
    requires Process(limit, rs, t, kib) && k < |rs| && Covers(rs[k], v)
    ensures Process(limit, SplitPage(rs, k, v, frame), Put(t, v, Pte(frame, true, rs[k].flags.other)), kib)
    ensures forall w: nat :: w != v ==> Find(SplitPage(rs, k, v, frame), w) == Find(rs, w)
    ensures Find(SplitPage(rs, k, v, frame), v) == Some(Info(frame, Upgraded(rs[k].flags)))
    ensures Find(rs, v) == Some(PageOf(rs[k], v)) && v in t && t[v] == PteOf(PageOf(rs[k], v))
  {
    var mid := [Region(v, frame, 1, Upgraded(rs[k].flags))];
    Rewrite(rs, k, v, v + 1, mid, limit);
    FindOne(mid[0], v);
    FindSome(rs, k, v, limit);
    hide Find, Replace, Parts, Tiled, Total;
    var n, t' := SplitPage(rs, k, v, frame), Put(t, v, Pte(frame, true, rs[k].flags.other));
    forall w: nat
      ensures (w in t' <==> Find(n, w).Some?) && (w in t' ==> t'[w] == PteOf(Find(n, w).value))
    {
      assert w != v ==> Find(n, w) == Find(rs, w);
    }
  }

  /** Moving a page to a frame without users moves one count. */
  lemma MoveCounts(refs: seq<nat>, ts: Tables, p: nat, v: nat, e: Pte)
    requires Counts(refs, ts) && p in ts && v in ts[p] && e.frame < |refs| && refs[e.frame] == 0
    ensures var f := ts[p][v].frame;
            f < |refs| && refs[f] > 0 && Counts(refs[f := refs[f] - 1][e.frame := 1], ts[p := Put(ts[p], v, e)])
  {
    UnmapOne(refs, ts, p, v);
    NoUser(refs, ts, p, v);
    var f := ts[p][v].frame;
    var ts1 := ts[p := ts[p] - {v}];
    MapOne(refs[f := refs[f] - 1], ts1, p, v, e);
    hide Counts;
    assert Put(ts[p] - {v}, v, e) == Put(ts[p], v, e);
    assert ts1[p := Put(ts1[p], v, e)] == ts[p := Put(ts[p], v, e)];
  }

  lemma MoveIsolated(refs: seq<nat>, ts: Tables, p: nat, v: nat, e: Pte)
    requires Counts(refs, ts) && Isolated(ts) && p in ts && v in ts[p] && e.frame < |refs|
    requires refs[e.frame] == 0 || (e.frame == ts[p][v].frame && Exclusive(ts, p, v))
    ensures Isolated(ts[p := Put(ts[p], v, e)])
  {
    hide Users;
    var ts': Tables := ts[p := Put(ts[p], v, e)];
    forall q, w | q in ts && w in ts[q]
      ensures ts[q][w].frame == e.frame ==> q == p && w == v
    {
      NoUser(refs, ts, q, w);
    }
    forall q, w | q in ts' && w in ts'[q] && ts'[q][w].write
      ensures Exclusive(ts', q, w)
    {
      if (q, w) != (p, v) {
        assert ts'[q][w] == ts[q][w];
        assert Exclusive(ts, q, w);
      }
    }
  }

  lemma SplitHonest(lists: RegionLists, p: nat, rs: seq<Region>, v: nat)
    requires Honest(lists) && p in lists && (forall w: nat :: w != v ==> Find(rs, w) == Find(lists[p], w))
    requires Find(rs, v).Some? && !Find(rs, v).value.flags.cow
    ensures Honest(lists[p := rs])
  {
    hide Find;
    var n := lists[p := rs];
    forall q, w: nat | q in n && Find(n[q], w).Some? && Find(n[q], w).value.flags.cow
      ensures Find(n[q], w).value.flags.write
    {
      if q == p {
        assert w != v;
      }
    }
  }

  /** One page of one process, seen with other rights. */
  ghost function Regranted(s: map<nat, Space>, p: nat, v: nat, write: bool): map<nat, Space>
    requires p in s && v in s[p]
  {
    Put(s, p, Put(s[p], v, s[p][v].(write := write)))
  }

  /** A new frame with the same contents for one page: at most its rights change, and only for its owner. */
  lemma MoveUnseen(frames: seq<Page>, refs: seq<nat>, lists: RegionLists, ts: Tables, p: nat, v: nat, e: Pte,
                   rs: seq<Region>, frames': seq<Page>)
    requires Counts(refs, ts) && |refs| == |frames| && Shown(frames, lists, ts) && p in ts && v in ts[p]
    requires Moves(frames, refs, ts[p], v, e, frames') && Linked(rs, Put(ts[p], v, e))
    requires forall w: nat :: w in ts[p] && w != v ==> Find(rs, w) == Find(lists[p], w)
    ensures Shown(frames', lists[p := rs], ts[p := Put(ts[p], v, e)])
    ensures Spaces(frames', lists[p := rs], ts[p := Put(ts[p], v, e)]) ==
            Regranted(Spaces(frames, lists, ts), p, v, MayWrite(rs, v))
  {
    var lists': RegionLists, ts': Tables := lists[p := rs], ts[p := Put(ts[p], v, e)];
    hide Counts, Linked, Find;
    forall q | q in ts
      ensures MoveSight(frames, lists, ts, p, v, e, rs, frames', q)
    {
      MoveUnseenBy(frames, refs, lists, ts, p, v, e, rs, frames', q);
    }
    hide See;
    var s := See(frames, lists[p], ts[p]);
    assert forall q :: q in ts ==> MoveSight(frames, lists, ts, p, v, e, rs, frames', q);
    SpacesPut(frames, lists, ts, frames', lists', ts', p, Put(s, v, s[v].(write := MayWrite(rs, v))));
  }

  ghost predicate Moves(frames: seq<Page>, refs: seq<nat>, t: Table, v: nat, e: Pte, frames': seq<Page>) {
    && v in t && t[v].frame < |frames| && e.frame < |refs| == |frames| && (refs[e.frame] == 0 || e.frame == t[v].frame)
    && e.other == t[v].other && frames' == frames[e.frame := frames[t[v].frame]]
  }

  ghost predicate MoveSight(frames: seq<Page>, lists: RegionLists, ts: Tables, p: nat, v: nat, e: Pte,
                            rs: seq<Region>, frames': seq<Page>, q: nat)
    requires Shown(frames, lists, ts) && p in ts && v in ts[p] && q in ts
  {
    var lists': RegionLists, ts': Tables := lists[p := rs], ts[p := Put(ts[p], v, e)];
    && Linked(lists'[q], ts'[q]) && (forall w :: w in ts'[q] ==> ts'[q][w].frame < |frames'|)
    && var s := See(frames, lists[q], ts[q]);
       See(frames', lists'[q], ts'[q]) == if q == p then Put(s, v, s[v].(write := MayWrite(rs, v))) else s
  }

  lemma MoveUnseenBy(frames: seq<Page>, refs: seq<nat>, lists: RegionLists, ts: Tables, p: nat, v: nat, e: Pte,
                     rs: seq<Region>, frames': seq<Page>, q: nat)
    requires Counts(refs, ts) && |refs| == |frames| && Shown(frames, lists, ts) && p in ts && v in ts[p] && q in ts
    requires Moves(frames, refs, ts[p], v, e, frames') && Linked(rs, Put(ts[p], v, e))
    requires forall w: nat :: w in ts[p] && w != v ==> Find(rs, w) == Find(lists[p], w)
    ensures MoveSight(frames, lists, ts, p, v, e, rs, frames', q)
  {
    hide Users, Find, Linked;
    NotMoved(frames, refs, ts, p, v, e, frames', q);
    hide Counts;
    if q != p {
      SameSight(frames, lists[q], ts[q], frames', lists[q], ts[q]);
    } else {
      MoverSees(frames, lists[p], ts[p], v, e, rs, frames');
    }
  }

  lemma MoverSees(frames: seq<Page>, rs0: seq<Region>, t: Table, v: nat, e: Pte, rs: seq<Region>, frames': seq<Page>)
    requires Linked(rs0, t) && (forall w :: w in t ==> t[w].frame < |frames|) && v in t && e.frame < |frames|
    requires Linked(rs, Put(t, v, e)) && e.other == t[v].other && frames' == frames[e.frame := frames[t[v].frame]]
    requires forall w: nat :: w in t && w != v ==> MayWrite(rs, w) == MayWrite(rs0, w) && frames'[t[w].frame] == frames[t[w].frame]
    ensures var s := See(frames, rs0, t);
            See(frames', rs, Put(t, v, e)) == Put(s, v, s[v].(write := MayWrite(rs, v)))
  {
    hide Find, Linked, MayWrite;
    var t': Table := Put(t, v, e);
    forall w | w in t && w != v
      ensures Sight(frames', rs, t', w) == Sight(frames, rs0, t, w)
    {
    }
    SeePut(frames, rs0, t, frames', rs, t', v, Sight(frames', rs, t', v));
  }

  lemma NotMoved(frames: seq<Page>, refs: seq<nat>, ts: Tables, p: nat, v: nat, e: Pte, frames': seq<Page>, q: nat)
    requires Counts(refs, ts) && |refs| == |frames| && p in ts && v in ts[p] && q in ts
    requires e.frame < |refs| && (refs[e.frame] == 0 || e.frame == ts[p][v].frame)
    requires frames' == frames[e.frame := frames[ts[p][v].frame]]
    ensures forall w :: w in ts[q] && (q, w) != (p, v) ==> frames'[ts[q][w].frame] == frames[ts[q][w].frame]
  {
    hide Users;
    forall w | w in ts[q]
      ensures frames'[ts[q][w].frame] == frames[ts[q][w].frame]
    {
      NoUser(refs, ts, q, w);
    }
  }

  /** The whole fault: the page moves to a frame of its own, and every invariant survives. */
  lemma FaultStep(limit: nat, frames: seq<Page>, refs: seq<nat>, lists: RegionLists, ts: Tables, kib: map<nat, nat>,
                  p: nat, v: nat, k: nat, frame: nat, refs': seq<nat>)
    requires Sane(limit, frames, refs, lists, ts, kib) && p in ts
    requires k < |lists[p]| && Covers(lists[p][k], v) && v in ts[p] && ts[p][v].frame < |refs| && frame < |refs|
    requires var f := ts[p][v].frame;
             if refs[f] == 1 then frame == f && refs' == refs
             else refs[frame] == 0 && refs' == refs[f := if refs[f] > 0 then refs[f] - 1 else 0][frame := 1]
    ensures var frames' := frames[frame := frames[ts[p][v].frame]];
            var rs := SplitPage(lists[p], k, v, frame);
            var ts': Tables := ts[p := Put(ts[p], v, Pte(frame, true, ts[p][v].other))];
            && Sane(limit, frames', refs', lists[p := rs], ts', kib) && Shown(frames, lists, ts)
            && (Strict(lists, ts) ==> Strict(lists[p := rs], ts')) && Shown(frames', lists[p := rs], ts') && Exclusive(ts', p, v)
            && p in Spaces(frames, lists, ts) && v in Spaces(frames, lists, ts)[p]
            && Spaces(frames', lists[p := rs], ts') == Regranted(Spaces(frames, lists, ts), p, v, true)
  {
    hide Counts, Process, SplitPage, Isolated, Honest, Spaces, Shown, Find, Linked, Exclusive, Regranted;
    var t, rs := ts[p], SplitPage(lists[p], k, v, frame);
    var f := t[v].frame;
    var e := Pte(frame, true, t[v].other);
    SplitProcess(limit, lists[p], t, kib[p], k, v, frame);
    SaneShown(limit, frames, refs, lists, ts, kib);
    PageSeen(frames, lists, ts, p, v);
    ExclusiveCount(refs, ts, p, v);
    if refs[f] == 1 {
      SameFrames(refs, ts, p, Put(t, v, e));
    } else {
      MoveCounts(refs, ts, p, v, e);
    }
    OneProcess(limit, frames, refs, lists, ts, kib, p, frames[frame := frames[f]], refs', rs, Put(t, v, e), kib[p]);
    assert kib[p := kib[p]] == kib;
    ExclusiveCount(refs', ts[p := Put(t, v, e)], p, v);
    ProcessLinked(limit, rs, Put(t, v, e), kib[p]);
    MoveUnseen(frames, refs, lists, ts, p, v, e, rs, frames[frame := frames[f]]);
    if Strict(lists, ts) {
      MoveIsolated(refs, ts, p, v, e);
      SplitHonest(lists, p, rs, v);
    }
  }

  lemma PageSeen(frames: seq<Page>, lists: RegionLists, ts: Tables, p: nat, v: nat)
    requires Shown(frames, lists, ts) && p in ts && v in ts[p]
    ensures p in Spaces(frames, lists, ts) && v in Spaces(frames, lists, ts)[p]
  {
  }

  lemma ProcessLinked(limit: nat, rs: seq<Region>, t: Table, kib: nat)
    requires Process(limit, rs, t, kib)
    ensures Linked(rs, t)
  {
  }

  lemma AlreadyGranted(s: map<nat, Space>, p: nat, v: nat)
    requires p in s && v in s[p] && s[p][v].write
    ensures Regranted(s, p, v, true) == s
  {
    assert Put(s[p], v, s[p][v]) == s[p];
  }

  // ----- a write to a page of one's own

  function StoreByte(c: Page, offset: nat, b: Bytes.byte): (n: Page)
    ensures |n| == |c| && forall k :: 0 <= k < |c| ==> n[k] == if k == offset then b else c[k]
  {
    if offset < |c| then c[offset := b] else c
  }

  /** A store through page `v` of `p` lands on page `w` of `q`: on itself, and on every page that maps the same frame when it is mapped writable. */
  ghost predicate Lands(ts: Tables, p: nat, v: nat, q: nat, w: nat) {
    p in ts && v in ts[p] && ((q == p && w == v) || (ts[p][v].write && Uses(ts, (q, w), ts[p][v].frame)))
  }

  ghost function WrittenTo(s: Space, ts: Tables, p: nat, v: nat, q: nat, c: Page): Space {
    map w | w in s :: if Lands(ts, p, v, q, w) then s[w].(content := c) else s[w]
  }

  /** What everybody sees when page `v` of `p` gets contents `c`. */
  ghost function Written(s: map<nat, Space>, ts: Tables, p: nat, v: nat, c: Page): map<nat, Space> {
    map q | q in s :: WrittenTo(s[q], ts, p, v, q, c)
  }

  /** A write to the frame of a writable page lands on every page that maps it. */
  lemma StoreSeen(frames: seq<Page>, lists: RegionLists, ts: Tables, p: nat, v: nat, c: Page)
    requires Shown(frames, lists, ts) && p in ts && v in ts[p] && ts[p][v].write
    ensures Shown(frames[ts[p][v].frame := c], lists, ts)
    ensures Spaces(frames[ts[p][v].frame := c], lists, ts) == Written(Spaces(frames, lists, ts), ts, p, v, c)
  {
    hide Linked, MayWrite;
    var f := ts[p][v].frame;
    forall q | q in ts
      ensures See(frames[f := c], lists[q], ts[q]) == WrittenTo(See(frames, lists[q], ts[q]), ts, p, v, q, c)
    {
    }
    hide See, WrittenTo;
  }

  /** Only the writer sees a write to a page that is not mapped writable or has its frame to itself. */
  lemma WrittenAlone(s: map<nat, Space>, ts: Tables, p: nat, v: nat, c: Page)
    requires p in ts && v in ts[p] && p in s && v in s[p] && (!ts[p][v].write || Exclusive(ts, p, v))
    ensures Written(s, ts, p, v, c) == Put(s, p, Put(s[p], v, s[p][v].(content := c)))
  {
    forall q | q in s
      ensures WrittenTo(s[q], ts, p, v, q, c) == if q == p then Put(s[p], v, s[p][v].(content := c)) else s[q]
    {
    }
    hide WrittenTo;
  }
}
