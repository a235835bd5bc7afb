/**
 * The list of user regions of an address space, in whole pages.  Lookups take the first region
 * that covers a page; splits, cuts and protection changes rewrite the list so that only the
 * pages asked for change.
 */
module Regions {
  datatype Flags = Flags(write: bool, cow: bool, other: nat)

  /** A run of pages mapped to a run of frames. */
  datatype Region = Region(base: nat, frame: nat, pages: nat, flags: Flags)

  datatype Info = Info(frame: nat, flags: Flags)

  datatype Option<T> = None | Some(value: T)

  function End(r: Region): nat {
    r.base + r.pages
  }

  predicate Covers(r: Region, v: nat) {
    r.base <= v < End(r)
  }

  predicate Overlaps(r: Region, lo: nat, hi: nat) {
    lo < hi && lo < End(r) && hi > r.base
  }

  function PageOf(r: Region, v: nat): Info
    requires Covers(r, v)
  {
    Info(r.frame + (v - r.base), r.flags)
  }

  /** What the first region that covers page `v` says about it. */
  function Find(rs: seq<Region>, v: nat): Option<Info> {
    if rs == [] then None
    else if Covers(rs[0], v) then Some(PageOf(rs[0], v))
    else Find(rs[1..], v)
  }

  predicate Apart(a: Region, b: Region) {
    End(a) <= b.base || End(b) <= a.base
  }

  /** Regions are not empty, end below the top of the address space, and do not overlap. */
  ghost predicate Tiled(rs: seq<Region>, limit: nat) {
    && (forall i :: 0 <= i < |rs| ==> rs[i].pages > 0 && End(rs[i]) < limit)
    && forall i, j :: 0 <= i < j < |rs| ==> Apart(rs[i], rs[j])
  }

  function Total(rs: seq<Region>): nat {
    if rs == [] then 0 else rs[0].pages + Total(rs[1..])
  }

  // ----- lists in parts

  lemma {:induction false} FindJoin(a: seq<Region>, b: seq<Region>, v: nat)
    ensures Find(a + b, v) == if Find(a, v).Some? then Find(a, v) else Find(b, v)
  {
    if a == [] {
      assert a + b == b;
    } else {
      assert (a + b)[1..] == a[1..] + b;
      FindJoin(a[1..], b, v);
    }
  }

  lemma {:induction false} TotalJoin(a: seq<Region>, b: seq<Region>)
    ensures Total(a + b) == Total(a) + Total(b)
  {
    if a == [] {
      assert a + b == b;
    } else {
      assert (a + b)[1..] == a[1..] + b;
      TotalJoin(a[1..], b);
    }
  }

  lemma {:induction false} FindNone(rs: seq<Region>, v: nat)
    requires forall k :: 0 <= k < |rs| ==> !Covers(rs[k], v)
    ensures Find(rs, v) == None
  {
    if rs != [] {
      FindNone(rs[1..], v);
    }
  }

  lemma FindSome(rs: seq<Region>, k: nat, v: nat, limit: nat)
    requires Tiled(rs, limit) && k < |rs| && Covers(rs[k], v)
    ensures Find(rs, v) == Some(PageOf(rs[k], v))
  {
    assert rs == rs[..k] + rs[k..];
    FindJoin(rs[..k], rs[k..], v);
    FindNone(rs[..k], v);
  }

  // ----- replacing one region by parts of it

  /** Every part lies within `r`, and the parts are tiled among themselves. */
  ghost predicate Within(parts: seq<Region>, r: Region) {
    && (forall i :: 0 <= i < |parts| ==> parts[i].pages > 0 && r.base <= parts[i].base && End(parts[i]) <= End(r))
    && forall i, j :: 0 <= i < j < |parts| ==> Apart(parts[i], parts[j])
  }

  function Replace(rs: seq<Region>, k: nat, parts: seq<Region>): seq<Region>
    requires k < |rs|
  {
    rs[..k] + parts + rs[k + 1..]
  }

  lemma ReplaceTiled(rs: seq<Region>, k: nat, parts: seq<Region>, limit: nat)
    requires Tiled(rs, limit) && k < |rs| && Within(parts, rs[k])
    ensures Tiled(Replace(rs, k, parts), limit)
  {
    var n := Replace(rs, k, parts);
    forall i | 0 <= i < |n|
      ensures n[i].pages > 0 && End(n[i]) < limit
    {
      var o := Origin(rs, k, parts, i);
    }
    forall i, j | 0 <= i < j < |n|
      ensures Apart(n[i], n[j])
    {
      var o := Origin(rs, k, parts, i);
      var p := Origin(rs, k, parts, j);
    }
  }

  /** Where an entry of the new list comes from. */
  lemma Origin(rs: seq<Region>, k: nat, parts: seq<Region>, i: nat) returns (o: nat)
    requires k < |rs| && i < |Replace(rs, k, parts)|
    ensures o < |rs| && (i < k ==> o == i) && (k <= i < k + |parts| ==> o == k) && (k + |parts| <= i ==> o == i - |parts| + 1)
    ensures o != k ==> Replace(rs, k, parts)[i] == rs[o]
    ensures k <= i < k + |parts| ==> Replace(rs, k, parts)[i] == parts[i - k]
  {
    o := if i < k then i else if i < k + |parts| then k else i - |parts| + 1;
  }

  lemma ReplaceFind(rs: seq<Region>, k: nat, parts: seq<Region>, v: nat, limit: nat)
    requires Tiled(rs, limit) && k < |rs| && Within(parts, rs[k])
    ensures Find(Replace(rs, k, parts), v) == if Covers(rs[k], v) then Find(parts, v) else Find(rs, v)
  {
    FindJoin(rs[..k] + parts, rs[k + 1..], v);
    FindJoin(rs[..k], parts, v);
    assert rs == rs[..k] + ([rs[k]] + rs[k + 1..]);
    FindJoin(rs[..k], [rs[k]] + rs[k + 1..], v);
    FindJoin([rs[k]], rs[k + 1..], v);
    if Covers(rs[k], v) {
      FindNone(rs[..k], v);
      FindNone(rs[k + 1..], v);
    } else {
      FindNone(parts, v);
    }
  }

  lemma ReplaceTotal(rs: seq<Region>, k: nat, parts: seq<Region>)
    requires k < |rs|
    ensures Total(Replace(rs, k, parts)) == Total(rs) - rs[k].pages + Total(parts)
  {
    TotalJoin(rs[..k] + parts, rs[k + 1..]);
    TotalJoin(rs[..k], parts);
    assert rs == rs[..k] + ([rs[k]] + rs[k + 1..]);
    TotalJoin(rs[..k], [rs[k]] + rs[k + 1..]);
    TotalJoin([rs[k]], rs[k + 1..]);
  }

  // ----- splitting a region

  /** The pages of `r` before `lo` and from `hi` on, with `mid` in between. */
  function Parts(r: Region, lo: nat, hi: nat, mid: seq<Region>): seq<Region>
    requires r.base <= lo <= hi <= End(r)
  {
    Before(r, lo) + mid + After(r, hi)
  }

  function Before(r: Region, lo: nat): seq<Region>
    requires r.base <= lo <= End(r)
  {
    if lo > r.base then [r.(pages := lo - r.base)] else []
  }

  function After(r: Region, hi: nat): seq<Region>
    requires r.base <= hi <= End(r)
  {
    if hi < End(r) then [Region(hi, r.frame + (hi - r.base), End(r) - hi, r.flags)] else []
  }

  /** At most one region, and only pages from `lo` up to `hi`. */
  predicate Middle(mid: seq<Region>, lo: nat, hi: nat) {
    mid == [] || (|mid| == 1 && mid[0].base == lo && End(mid[0]) == hi && lo < hi)
  }

  lemma PartsWithin(r: Region, lo: nat, hi: nat, mid: seq<Region>)
    requires r.base <= lo <= hi <= End(r) && Middle(mid, lo, hi)
    ensures Within(Parts(r, lo, hi, mid), r)
  {
  }

  lemma PartsTotal(r: Region, lo: nat, hi: nat, mid: seq<Region>)
    requires r.base <= lo <= hi <= End(r) && Middle(mid, lo, hi)
    ensures Total(Parts(r, lo, hi, mid)) == r.pages - (if mid == [] then hi - lo else 0)
  {
    TotalJoin(Before(r, lo) + mid, After(r, hi));
    TotalJoin(Before(r, lo), mid);
  }

  lemma PartsFind(r: Region, lo: nat, hi: nat, mid: seq<Region>, v: nat)
    requires r.base <= lo <= hi <= End(r) && Middle(mid, lo, hi)
    ensures Find(Parts(r, lo, hi, mid), v) ==
            if lo <= v < hi then Find(mid, v) else if Covers(r, v) then Some(PageOf(r, v)) else None
  {
    FindJoin(Before(r, lo) + mid, After(r, hi), v);
    FindJoin(Before(r, lo), mid, v);
  }

  /** Rewriting part of one region changes those pages and no other. */
  lemma Rewrite(rs: seq<Region>, k: nat, lo: nat, hi: nat, mid: seq<Region>, limit: nat)
    requires Tiled(rs, limit) && k < |rs| && rs[k].base <= lo <= hi <= End(rs[k]) && Middle(mid, lo, hi)
    ensures var n := Replace(rs, k, Parts(rs[k], lo, hi, mid));
            && Tiled(n, limit) && Total(n) == Total(rs) - (if mid == [] then hi - lo else 0)
            && forall v: nat :: Find(n, v) == if lo <= v < hi then Find(mid, v) else Find(rs, v)
  {
    hide Total, Find, Tiled, Parts;
    var parts := Parts(rs[k], lo, hi, mid);
    PartsWithin(rs[k], lo, hi, mid);
    PartsTotal(rs[k], lo, hi, mid);
    ReplaceTiled(rs, k, parts, limit);
    ReplaceTotal(rs, k, parts);
    forall v: nat
      ensures Find(Replace(rs, k, parts), v) == if lo <= v < hi then Find(mid, v) else Find(rs, v)
    {
      ReplaceFind(rs, k, parts, v, limit);
      PartsFind(rs[k], lo, hi, mid, v);
      if Covers(rs[k], v) {
        FindSome(rs, k, v, limit);
      }
    }
  }

  lemma FindOne(r: Region, v: nat)
    ensures Find([r], v) == if Covers(r, v) then Some(PageOf(r, v)) else None
  {
  }

  // ----- the space for a new mapping

  /** No region covers a page of the run. */
  ghost predicate Free(rs: seq<Region>, base: nat, pages: nat) {
    forall i :: 0 <= i < |rs| ==> !Overlaps(rs[i], base, base + pages)
  }

  lemma FreeMeans(rs: seq<Region>, base: nat, pages: nat, limit: nat)
    requires Tiled(rs, limit)
    ensures Free(rs, base, pages) <==> forall v: nat :: base <= v < base + pages ==> Find(rs, v) == None
  {
    if Free(rs, base, pages) {
      forall v: nat | base <= v < base + pages
        ensures Find(rs, v) == None
      {
        FindNone(rs, v);
      }
    } else {
      var i :| 0 <= i < |rs| && Overlaps(rs[i], base, base + pages);
      FindSome(rs, i, if base < rs[i].base then rs[i].base else base, limit);
    }
  }

  const LOWEST: nat := 0x400

  predicate InStack(r: Region, stackBase: nat, stackPages: nat) {
    stackBase > 0 && r.base >= stackBase && End(r) <= stackBase + stackPages
  }

  /** Where the search starts: behind every region that does not lie within the stack, and no further. */
  ghost predicate Start(rs: seq<Region>, stackBase: nat, stackPages: nat, f: nat) {
    && f >= 0x400
    && (forall r :: r in rs && !InStack(r, stackBase, stackPages) ==> r.base + r.pages <= f)
    && (f == 0x400 || exists r :: r in rs && !InStack(r, stackBase, stackPages) && r.base + r.pages == f)
  }

  /** There is one such place, for each region counts by its bounds alone. */
  lemma StartIs(rs: seq<Region>, stackBase: nat, stackPages: nat, f: nat)
    ensures Start(rs, stackBase, stackPages, f) <==>
            && f >= 0x400
            && (forall r :: r in rs && (stackBase == 0 || r.base < stackBase || r.base + r.pages > stackBase + stackPages) ==> r.base + r.pages <= f)
            && (f == 0x400 || exists r :: r in rs && r.base + r.pages == f &&
                                (stackBase == 0 || r.base < stackBase || f > stackBase + stackPages))
    ensures forall g :: Start(rs, stackBase, stackPages, f) && Start(rs, stackBase, stackPages, g) ==> f == g
  {
  }

  /** The run ends below the stack and below the top of the address space. */
  predicate Below(a: nat, pages: nat, stackBase: nat, limit: nat) {
    a + pages <= stackBase && a + pages < limit
  }

  /** `addr` is the lowest free run from the start of the search on; zero stands for none that ends low enough. */
  ghost predicate Lowest(rs: seq<Region>, pages: nat, stackBase: nat, stackPages: nat, limit: nat, addr: nat) {
    exists start :: Start(rs, stackBase, stackPages, start) && LowestFrom(rs, pages, stackBase, limit, start, addr)
  }

  ghost predicate LowestFrom(rs: seq<Region>, pages: nat, stackBase: nat, limit: nat, start: nat, addr: nat) {
    if addr != 0
    then start <= addr && Free(rs, addr, pages) && Below(addr, pages, stackBase, limit) && forall a :: start <= a < addr ==> !Free(rs, a, pages)
    else forall a :: start <= a && Free(rs, a, pages) ==> !Below(a, pages, stackBase, limit)
  }

  /** Where a mapping goes; zero when it is refused.  A hint that is too high is refused, not replaced. */
  ghost predicate Placed(rs: seq<Region>, hint: nat, fixed: bool, pages: nat, stackBase: nat, stackPages: nat, limit: nat, addr: nat) {
    if hint != 0 && !Below(hint, pages, stackBase, limit) then addr == 0
    else if hint != 0 && Free(rs, hint, pages) then addr == hint
    else if fixed then addr == 0
    else Lowest(rs, pages, stackBase, stackPages, limit, addr)
  }

  /** All regions end at or below `a`, but for those within the stack. */
  ghost predicate Behind(rs: seq<Region>, stackBase: nat, stackPages: nat, a: nat) {
    forall r :: r in rs ==> r.base + r.pages <= a || (0 < stackBase <= r.base && r.base + r.pages <= stackBase + stackPages)
  }

  /** A request without a hint is not refused while there is room behind the regions and below the stack. */
  lemma RoomBehind(rs: seq<Region>, pages: nat, stackBase: nat, stackPages: nat, limit: nat, a: nat)
    requires pages > 0 && a >= 0x400 && a + pages <= stackBase && a + pages < limit && Behind(rs, stackBase, stackPages, a)
    ensures !Placed(rs, 0, false, pages, stackBase, stackPages, limit, 0)
  {
    assert Free(rs, a, pages);
    forall start: nat | Start(rs, stackBase, stackPages, start)
      ensures !LowestFrom(rs, pages, stackBase, limit, start, 0)
    {
      assert start <= a;
    }
  }

  /**
   * The lowest free run from the start of the search on, or zero when it would reach into the stack or
   * past the top of the address space.  The search ends because every step passes a region.
   */
  method PickBase(rs: seq<Region>, pages: nat, stackBase: nat, stackPages: nat, limit: nat)
    returns (addr: nat, ghost start: nat)
    requires Tiled(rs, limit) && pages > 0
    ensures Lowest(rs, pages, stackBase, stackPages, limit, addr) && Start(rs, stackBase, stackPages, start)
    ensures addr != 0 ==> start <= addr && Free(rs, addr, pages) && addr + pages <= stackBase && addr + pages < limit
    ensures addr != 0 ==> forall a :: start <= a < addr ==> !Free(rs, a, pages)
    ensures addr == 0 ==> forall a :: start <= a && Free(rs, a, pages) ==> a + pages > stackBase || a + pages >= limit
  {
    var base := SearchStart(rs, stackBase, stackPages);
    addr, start := base, base;
    var advanced := true;
    while advanced
      invariant base <= addr && addr != 0
      invariant forall a :: base <= a < addr ==> !Free(rs, a, pages)
      invariant !advanced ==> Free(rs, addr, pages)
      decreases limit - addr, advanced
    {
      advanced := false;
      var i := 0;
      while i < |rs|
        invariant 0 <= i <= |rs|
        invariant forall j :: 0 <= j < i ==> !Overlaps(rs[j], addr, addr + pages)
      {
        if addr + pages >= limit {
          TooHigh(rs, base, addr, pages, limit);
          assert LowestFrom(rs, pages, stackBase, limit, base, 0);
          return 0, base;
        }
        if Overlaps(rs[i], addr, addr + pages) {
          StepOver(rs, i, addr, pages);
          addr := End(rs[i]);
          advanced := true;
          break;
        }
        i := i + 1;
      }
    }
    if addr + pages >= limit || addr + pages > stackBase {
      addr := 0;
    }
    assert LowestFrom(rs, pages, stackBase, limit, base, addr);
  }

  method SearchStart(rs: seq<Region>, stackBase: nat, stackPages: nat) returns (base: nat)
    ensures Start(rs, stackBase, stackPages, base)
  {
    base := LOWEST;
    for i := 0 to |rs|
      invariant Start(rs[..i], stackBase, stackPages, base)
    {
      assert rs[..i + 1] == rs[..i] + [rs[i]];
      if !InStack(rs[i], stackBase, stackPages) && End(rs[i]) > base {
        base := End(rs[i]);
      }
    }
    assert rs[..|rs|] == rs;
  }

  lemma TooHigh(rs: seq<Region>, base: nat, addr: nat, pages: nat, limit: nat)
    requires addr + pages >= limit && forall a :: base <= a < addr ==> !Free(rs, a, pages)
    ensures forall a :: base <= a && Free(rs, a, pages) ==> a + pages >= limit
  {
  }

  /** Nothing between the start of an overlapping run and the end of the region is free. */
  lemma StepOver(rs: seq<Region>, i: nat, addr: nat, pages: nat)
    requires i < |rs| && Overlaps(rs[i], addr, addr + pages)
    ensures forall a :: addr <= a < End(rs[i]) ==> !Free(rs, a, pages)
    ensures End(rs[i]) > addr
  {
    forall a | addr <= a < End(rs[i])
      ensures !Free(rs, a, pages)
    {
      assert Overlaps(rs[i], a, a + pages);
    }
  }

  /** Chooses where a mapping goes: the hint when it is free, otherwise wherever there is room. */
  method Place(rs: seq<Region>, hint: nat, fixed: bool, pages: nat, stackBase: nat, stackPages: nat, limit: nat)
    returns (ok: bool, addr: nat)
    requires Tiled(rs, limit) && pages > 0
    ensures ok ==> addr > 0 && Free(rs, addr, pages) && addr + pages <= stackBase && addr + pages < limit
    ensures hint != 0 && Free(rs, hint, pages) && hint + pages <= stackBase && hint + pages < limit ==> ok && addr == hint
    ensures ok && hint != 0 ==> hint + pages <= stackBase && hint + pages < limit && (fixed || Free(rs, hint, pages) ==> addr == hint)
    ensures fixed && hint == 0 ==> !ok
    ensures Placed(rs, hint, fixed, pages, stackBase, stackPages, limit, if ok then addr else 0)
  {
    ghost var start;
    addr := hint;
    if addr == 0 && fixed {
      return false, 0;
    }
    if addr == 0 {
      addr, start := PickBase(rs, pages, stackBase, stackPages, limit);
    }
    if addr == 0 || addr + pages >= limit || addr + pages > stackBase {
      return false, 0;
    }
    var i := 0;
    while i < |rs|
      invariant 0 <= i <= |rs|
      invariant forall j :: 0 <= j < i ==> !Overlaps(rs[j], addr, addr + pages)
    {
      if Overlaps(rs[i], addr, addr + pages) {
        if fixed {
          return false, 0;
        }
        addr, start := PickBase(rs, pages, stackBase, stackPages, limit);
        return addr != 0, addr;
      }
      i := i + 1;
    }
    ok := true;
  }
}
