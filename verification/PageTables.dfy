/**
 * Page tables of all processes over one pool of reference-counted frames, and what each
 * process sees through them.
 */
module PageTables {
  import Bytes
  import opened Regions

  type Page = seq<Bytes.byte>

  datatype Pte = Pte(frame: nat, write: bool, other: nat)

  type Table = map<nat, Pte>
  type Tables = map<nat, Table>

  function Put<T>(t: map<nat, T>, v: nat, e: T): map<nat, T> {
    t[v := e]
  }

  /** A copy-on-write page is never mapped writable. */
  function PteOf(i: Info): Pte {
    Pte(i.frame, i.flags.write && !i.flags.cow, i.flags.other)
  }

  /** The page table holds exactly the pages of the regions, with the frames and rights they name. */
  ghost predicate Linked(rs: seq<Region>, t: Table) {
    forall v: nat :: (v in t <==> Find(rs, v).Some?) && (v in t ==> t[v] == PteOf(Find(rs, v).value))
  }

  // ----- who uses a frame

  ghost predicate Uses(ts: Tables, x: (nat, nat), f: nat) {
    x.0 in ts && x.1 in ts[x.0] && ts[x.0][x.1].frame == f
  }

  /** The pages, of whatever process, that map to frame `f`. */
  ghost function Users(ts: Tables, f: nat): set<(nat, nat)> {
    set p, v | p in ts && v in ts[p] && ts[p][v].frame == f :: (p, v)
  }

  lemma UsersAre(ts: Tables, f: nat, x: (nat, nat))
    ensures x in Users(ts, f) <==> Uses(ts, x, f)
  {
    assert x == (x.0, x.1);
  }

  /** Every frame's count is the number of pages that map to it. */
  ghost predicate Counts(refs: seq<nat>, ts: Tables) {
    && (forall p, v :: p in ts && v in ts[p] ==> ts[p][v].frame < |refs|)
    && forall f: nat :: f < |refs| ==> refs[f] == |Users(ts, f)|
  }

  lemma SameUsers(ts: Tables, ts': Tables, f: nat)
    requires forall x: (nat, nat) :: Uses(ts', x, f) <==> Uses(ts, x, f)
    ensures Users(ts', f) == Users(ts, f)
  {
    hide Users;
    forall x: (nat, nat)
      ensures x in Users(ts', f) <==> x in Users(ts, f)
    {
      UsersAre(ts, f, x);
      UsersAre(ts', f, x);
    }
  }

  lemma MoreUsers(ts: Tables, ts': Tables, f: nat, y: (nat, nat))
    requires forall x: (nat, nat) :: Uses(ts', x, f) <==> (Uses(ts, x, f) || x == y)
    ensures Users(ts', f) == Users(ts, f) + {y}
  {
    hide Users;
    forall x: (nat, nat)
      ensures x in Users(ts', f) <==> x in Users(ts, f) + {y}
    {
      UsersAre(ts, f, x);
      UsersAre(ts', f, x);
    }
  }

  lemma OneUser(ts: Tables, p: nat, v: nat, e: Pte, f: nat)
    requires p in ts && v !in ts[p]
    ensures |Users(ts[p := Put(ts[p], v, e)], f)| == |Users(ts, f)| + if f == e.frame then 1 else 0
  {
    hide Users;
    var ts': Tables := ts[p := Put(ts[p], v, e)];
    if f == e.frame {
      MoreUsers(ts, ts', f, (p, v));
      UsersAre(ts, f, (p, v));
    } else {
      SameUsers(ts, ts', f);
    }
  }

  /** Mapping a page adds one user to its frame. */
  lemma MapOne(refs: seq<nat>, ts: Tables, p: nat, v: nat, e: Pte)
    requires Counts(refs, ts) && p in ts && v !in ts[p] && e.frame < |refs|
    ensures Counts(refs[e.frame := refs[e.frame] + 1], ts[p := Put(ts[p], v, e)])
  {
    hide Users;
    forall f: nat | f < |refs|
      ensures |Users(ts[p := Put(ts[p], v, e)], f)| == |Users(ts, f)| + if f == e.frame then 1 else 0
    {
      OneUser(ts, p, v, e, f);
    }
  }

  /** Unmapping a page takes one user from its frame. */
  lemma UnmapOne(refs: seq<nat>, ts: Tables, p: nat, v: nat)
    requires Counts(refs, ts) && p in ts && v in ts[p]
    ensures var f := ts[p][v].frame;
            f < |refs| && refs[f] > 0 && Counts(refs[f := refs[f] - 1], ts[p := ts[p] - {v}])
  {
    hide Users;
    var e := ts[p][v];
    var ts': Tables := ts[p := ts[p] - {v}];
    assert ts'[p := Put(ts'[p], v, e)] == ts by {
      assert Put(ts[p] - {v}, v, e) == ts[p];
    }
    forall f: nat | f < |refs|
      ensures |Users(ts, f)| == |Users(ts', f)| + if f == e.frame then 1 else 0
    {
      OneUser(ts', p, v, e, f);
    }
  }

  /** Changing rights changes no user. */
  lemma SameFrames(refs: seq<nat>, ts: Tables, p: nat, t: Table)
    requires Counts(refs, ts) && p in ts && t.Keys == ts[p].Keys && forall v :: v in t ==> t[v].frame == ts[p][v].frame
    ensures Counts(refs, ts[p := t])
  {
    var ts' := ts[p := t];
    forall f: nat | f < |refs|
      ensures Users(ts', f) == Users(ts, f)
    {
      SameUsers(ts, ts', f);
    }
    hide Users;
  }

  /** A process without pages comes or goes. */
  lemma EmptyProcess(refs: seq<nat>, ts: Tables, p: nat)
    requires Counts(refs, ts)
    ensures p !in ts ==> Counts(refs, ts[p := map[]])
    ensures p in ts && ts[p] == map[] ==> Counts(refs, ts - {p})
  {
    if p !in ts {
      forall f: nat | f < |refs|
        ensures Users(ts[p := map[]], f) == Users(ts, f)
      {
        SameUsers(ts, ts[p := map[]], f);
      }
    } else if ts[p] == map[] {
      forall f: nat | f < |refs|
        ensures Users(ts - {p}, f) == Users(ts, f)
      {
        SameUsers(ts, ts - {p}, f);
      }
    }
    hide Users;
  }

  lemma OnlyUser(refs: seq<nat>, ts: Tables, p: nat, v: nat, q: nat, w: nat)
    requires Counts(refs, ts) && p in ts && v in ts[p] && q in ts && w in ts[q]
    requires ts[q][w].frame == ts[p][v].frame && refs[ts[p][v].frame] == 1
    ensures p == q && v == w
  {
    var f := ts[p][v].frame;
    UsersAre(ts, f, (p, v));
    UsersAre(ts, f, (q, w));
    Singleton(Users(ts, f), (p, v), (q, w));
  }

  lemma Singleton<T>(s: set<T>, x: T, y: T)
    requires x in s && y in s && |s| == 1
    ensures x == y
  {
    assert |s - {x}| == 0;
  }

  lemma NoUser(refs: seq<nat>, ts: Tables, p: nat, v: nat)
    requires Counts(refs, ts) && p in ts && v in ts[p]
    ensures refs[ts[p][v].frame] > 0
  {
    UsersAre(ts, ts[p][v].frame, (p, v));
  }

  // ----- what a process sees

  datatype View = View(content: Page, write: bool, other: nat)
  type Space = map<nat, View>

  ghost function Sight(frames: seq<Page>, rs: seq<Region>, t: Table, v: nat): View
    requires v in t && t[v].frame < |frames|
  {
    View(frames[t[v].frame], MayWrite(rs, v), t[v].other)
  }

  /** The page belongs to a writable region. */
  predicate MayWrite(rs: seq<Region>, v: nat) {
    Find(rs, v).Some? && Find(rs, v).value.flags.write
  }

  ghost function See(frames: seq<Page>, rs: seq<Region>, t: Table): Space
    requires forall v :: v in t ==> t[v].frame < |frames|
  {
    map v | v in t :: Sight(frames, rs, t, v)
  }

  // ----- the whole state

  type RegionLists = map<nat, seq<Region>>

  /** One process: its regions are tiled, its table follows them, and its size is counted in KiB. */
  ghost predicate Process(limit: nat, rs: seq<Region>, t: Table, kib: nat) {
    Tiled(rs, limit) && Linked(rs, t) && kib == 4 * Total(rs)
  }

  ghost predicate Sane(limit: nat, frames: seq<Page>, refs: seq<nat>, lists: RegionLists, ts: Tables, kib: map<nat, nat>) {
    && |refs| == |frames| && lists.Keys == ts.Keys == kib.Keys && Counts(refs, ts)
    && forall p :: p in ts ==> Process(limit, lists[p], ts[p], kib[p])
  }

  /** No other page, of any process, maps to the frame of this one. */
  ghost predicate Exclusive(ts: Tables, p: nat, v: nat)
    requires p in ts && v in ts[p]
  {
    forall q, w :: q in ts && w in ts[q] && ts[q][w].frame == ts[p][v].frame ==> q == p && w == v
  }

  /** A page mapped writable is the only user of its frame. */
  ghost predicate Isolated(ts: Tables) {
    forall p, v :: p in ts && v in ts[p] && ts[p][v].write ==> Exclusive(ts, p, v)
  }

  /** A page has its frame to itself exactly when the frame's count is one. */
  lemma ExclusiveCount(refs: seq<nat>, ts: Tables, p: nat, v: nat)
    requires Counts(refs, ts) && p in ts && v in ts[p]
    ensures Exclusive(ts, p, v) <==> refs[ts[p][v].frame] == 1
  {
    var f := ts[p][v].frame;
    UsersAre(ts, f, (p, v));
    if Exclusive(ts, p, v) {
      assert Users(ts, f) == {(p, v)};
    } else if refs[f] == 1 {
      forall q, w | q in ts && w in ts[q] && ts[q][w].frame == f
        ensures q == p && w == v
      {
        OnlyUser(refs, ts, p, v, q, w);
      }
    }
  }

  /** A copy-on-write page belongs to a writable region. */
  ghost predicate Honest(lists: RegionLists) {
    forall p, v: nat :: p in lists && Find(lists[p], v).Some? && Find(lists[p], v).value.flags.cow ==>
                          Find(lists[p], v).value.flags.write
  }

  /** The rules of copy-on-write: writable pages are not shared, and what is marked may be written. */
  ghost predicate Strict(lists: RegionLists, ts: Tables) {
    Isolated(ts) && Honest(lists)
  }

  /** What every process sees. */
  ghost function Spaces(frames: seq<Page>, lists: RegionLists, ts: Tables): map<nat, Space>
    requires Shown(frames, lists, ts)
  {
    map p | p in ts :: See(frames, lists[p], ts[p])
  }

  ghost predicate Shown(frames: seq<Page>, lists: RegionLists, ts: Tables) {
    && lists.Keys == ts.Keys
    && forall p :: p in ts ==> Linked(lists[p], ts[p]) && forall v :: v in ts[p] ==> ts[p][v].frame < |frames|
  }

  lemma SaneShown(limit: nat, frames: seq<Page>, refs: seq<nat>, lists: RegionLists, ts: Tables, kib: map<nat, nat>)
    requires Sane(limit, frames, refs, lists, ts, kib)
    ensures Shown(frames, lists, ts)
  {
  }

  /** Two tables show the same when rights and frame contents agree. */
  lemma SameSight(frames: seq<Page>, rs: seq<Region>, t: Table, frames': seq<Page>, rs': seq<Region>, t': Table)
    requires (forall v :: v in t ==> t[v].frame < |frames|) && (forall v :: v in t' ==> t'[v].frame < |frames'|)
    requires t'.Keys == t.Keys
    requires forall v :: v in t ==> frames'[t'[v].frame] == frames[t[v].frame] && t'[v].other == t[v].other
    requires forall v :: v in t ==> MayWrite(rs', v) == MayWrite(rs, v)
    ensures See(frames', rs', t') == See(frames, rs, t)
  {
    hide MayWrite;
    forall v | v in t
      ensures Sight(frames', rs', t', v) == Sight(frames, rs, t, v)
    {
    }
    hide Sight;
  }

  /** One page shows something new. */
  lemma SeePut(frames: seq<Page>, rs: seq<Region>, t: Table, frames': seq<Page>, rs': seq<Region>, t': Table, v: nat, x: View)
    requires (forall w :: w in t ==> t[w].frame < |frames|) && (forall w :: w in t' ==> t'[w].frame < |frames'|)
    requires t'.Keys == t.Keys + {v} && Sight(frames', rs', t', v) == x
    requires forall w :: w in t && w != v ==> Sight(frames', rs', t', w) == Sight(frames, rs, t, w)
    ensures See(frames', rs', t') == Put(See(frames, rs, t), v, x)
  {
    hide Sight;
  }

  /** One process sees something new, the others do not. */
  lemma SpacesPut(frames: seq<Page>, lists: RegionLists, ts: Tables, frames': seq<Page>, lists': RegionLists, ts': Tables,
                  p: nat, x: Space)
    requires Shown(frames, lists, ts) && Shown(frames', lists', ts') && ts'.Keys == ts.Keys + {p}
    requires See(frames', lists'[p], ts'[p]) == x
    requires forall q :: q in ts && q != p ==> See(frames', lists'[q], ts'[q]) == See(frames, lists[q], ts[q])
    ensures Spaces(frames', lists', ts') == Put(Spaces(frames, lists, ts), p, x)
  {
    hide See, Shown;
  }
}
