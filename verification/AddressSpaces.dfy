/**
 * All user address spaces of the kernel: fork by copying or by sharing, page faults, mapping,
 * unmapping, protection changes and teardown.  Whatever sharing goes on below, every process
 * sees the memory it would see if fork had copied every page, up to a change of rights that
 * copy-on-write cannot follow.
 */
module AddressSpaces {
  import Bytes
  import opened Regions
  import opened PageTables
  import opened CopyOnWrite
  import opened ForkSteps
  import opened UnmapSteps
  import opened CopiedMemory

  /** Why a call may fail for lack of memory: no free frame for a copy; no place, or no run of frames, for a mapping. */
  ghost predicate Short(lists: RegionLists, refs: seq<nat>, op: Op, limit: nat) {
    match op
    case StoreOp(_, _, _, _) => NoRun(refs, 1)
    case MmapOp(p, hint, fixed, pages, _, _, stackBase, stackPages) =>
      pages == 0 || NoRun(refs, pages) || (p in lists && Placed(lists[p], hint, fixed, pages, stackBase, stackPages, limit, 0))
    case _ => false
  }

  class Kernel {
    /** First page number past the user address space. */
    const limit: nat
    var frames: seq<Page>
    var refs: seq<nat>
    var lists: RegionLists
    var tables: Tables
    var kib: map<nat, nat>

    ghost predicate Sound()
      reads this
    {
      Sane(limit, frames, refs, lists, tables, kib) && FullPages(frames)
    }

    /** No store can tell that frames are shared: see `CopiedMemory.FaithfulStates`. */
    ghost predicate Valid()
      reads this
    {
      Sound() && Strict(lists, tables)
    }

    ghost function Seen(): map<nat, Space>
      requires Sound()
      reads this
    {
      SaneShown(limit, frames, refs, lists, tables, kib);
      Spaces(frames, lists, tables)
    }

    /** Whatever store comes next, it is answered and seen as if nothing were shared. */
    ghost predicate Trustworthy()
      requires Sound()
      reads this
    {
      SaneShown(limit, frames, refs, lists, tables, kib);
      Faithful(frames, refs, lists, tables)
    }

    /** No process, and every frame free. */
    constructor (limit: nat, frames: seq<Page>)
      requires FullPages(frames)
      ensures Valid() && Seen() == map[] && this.limit == limit && this.frames == frames && NoRefs(refs)
    {
      this.limit, this.frames, refs := limit, frames, seq(|frames|, _ => 0);
      lists, tables, kib := map[], map[], map[];
      new;
      NoUsers(refs);
    }

    /** A process with an empty address space. */
    method Spawn(p: nat)
      requires Sound() && p !in tables
      modifies this`lists, this`tables, this`kib
      ensures Sound() && (old(Valid()) ==> Valid()) && Seen() == Put(old(Seen()), p, map[]) && lists == old(lists)[p := []]
    {
      hide Sane, Strict, Shown, Spaces, StillSeen;
      NewProcess(limit, frames, refs, lists, tables, kib, p);
      NewSeen(frames, lists, tables, p);
      lists, tables, kib := lists[p := []], tables[p := map[]], kib[p := 0];
    }

    /** The first region that covers a page. */
    method FindRegion(p: nat, v: nat) returns (found: bool, k: nat)
      requires Sound() && p in lists
      ensures found == Find(lists[p], v).Some?
      ensures found ==> k < |lists[p]| && Covers(lists[p][k], v)
    {
      hide Tiled, Total, Linked, Counts;
      var rs := lists[p];
      k := 0;
      while k < |rs|
        invariant k <= |rs| && Find(rs[k..], v) == Find(rs, v)
      {
        if Covers(rs[k], v) {
          return true, k;
        }
        assert rs[k..][1..] == rs[k + 1..];
        k := k + 1;
      }
      found := false;
    }

    /** A frame nobody uses. */
    method FindFrame() returns (ok: bool, f: nat)
      ensures ok ==> f < |refs| && refs[f] == 0
      ensures !ok ==> forall g :: 0 <= g < |refs| ==> refs[g] != 0
    {
      f := 0;
      while f < |refs|
        invariant f <= |refs| && forall g :: 0 <= g < f ==> refs[g] != 0
      {
        if refs[f] == 0 {
          return true, f;
        }
        f := f + 1;
      }
      ok := false;
    }

    /**
     * A write fault on a shared page: the writer gets a copy of the frame, or the frame itself
     * when nobody else uses it, and the page gets a region of its own.  Only the rights of that
     * page may change, and only when its region was not writable.
     */
    method CowFault(p: nat, v: nat) returns (r: Outcome)
      requires Sound()
      modifies this
      ensures Sound() && (old(Valid()) ==> Valid())
      ensures r.Fault? <==> !Shared(old(lists), p, v)
      ensures r.NoMemory? <==> Shared(old(lists), p, v) && Stuck(old(refs), old(tables), p, v)
      ensures r.NoMemory? ==> p in old(tables) && v in old(tables)[p] && !old(tables)[p][v].write && old(tables)[p][v].frame < |old(refs)|
                              && old(refs)[old(tables)[p][v].frame] > 1 && forall g :: 0 <= g < |old(refs)| ==> old(refs)[g] != 0
      ensures r.Done? ==> p in tables && v in tables[p] && tables[p][v].write && Exclusive(tables, p, v)
      ensures r.Done? ==> p in old(Seen()) && v in old(Seen())[p] && Seen() == Regranted(old(Seen()), p, v, true)
      ensures !r.Done? ==> unchanged(this)
    {
      hide Sane, Strict, Find, SplitPage, Spaces, Shown, Regranted, FullPages, Exclusive;
      SaneKeys(limit, frames, refs, lists, tables, kib);
      if p !in lists {
        return Fault;
      }
      var found, k := FindRegion(p, v);
      if !found {
        return Fault;
      }
      RegionPage(limit, frames, refs, lists, tables, kib, p, k, v);
      if !lists[p][k].flags.cow || tables[p][v].write {
        return Fault;
      }
      var f := tables[p][v].frame;
      var frame := f;
      if refs[f] > 1 {
        var ok;
        ok, frame := FindFrame();
        if !ok {
          return NoMemory;
        }
      }
      var refs' := if refs[f] == 1 then refs else refs[f := refs[f] - 1][frame := 1];
      FaultStep(limit, frames, refs, lists, tables, kib, p, v, k, frame, refs');
      FullCopied(frames, frame, f);
      frames, refs := frames[frame := frames[f]], refs';
      lists := lists[p := SplitPage(lists[p], k, v, frame)];
      tables := tables[p := Put(tables[p], v, Pte(frame, true, tables[p][v].other))];
      r := Done;
    }

    /**
     * A user program stores a byte.  It succeeds exactly on pages that are writable or marked
     * copy-on-write, unless no frame is left for a copy, and it lands on every page that maps the
     * frame of a page mapped writable.
     */
    method Store(p: nat, v: nat, offset: nat, b: Bytes.byte) returns (r: Outcome)
      requires Sound()
      modifies this
      ensures Sound() && (old(Valid()) ==> Valid())
      ensures r == StoreOutcome(old(lists), old(refs), old(tables), p, v)
      ensures r.NoMemory? ==> p in old(tables) && v in old(tables)[p] && !old(tables)[p][v].write && old(tables)[p][v].frame < |old(refs)|
                              && old(refs)[old(tables)[p][v].frame] > 1 && forall g :: 0 <= g < |old(refs)| ==> old(refs)[g] != 0
      ensures Seen() == AfterStore(old(Seen()), old(tables), p, v, offset, b, r)
      ensures !r.Done? ==> unchanged(this)
    {
      hide Sane, Strict, Find, Spaces, Shown, Regranted, Written, Stored, FullPages, Exclusive;
      ghost var s0, ts0: Tables := Seen(), tables;
      PageIs(limit, frames, refs, lists, tables, kib, p, v);
      if p !in tables || v !in tables[p] {
        return Fault;
      }
      if !tables[p][v].write {
        r := CowFault(p, v);
        if !r.Done? {
          return;
        }
      }
      PageIs(limit, frames, refs, lists, tables, kib, p, v);
      var f := tables[p][v].frame;
      var c := StoreByte(frames[f], offset, b);
      StoreStep(limit, frames, refs, lists, tables, kib, p, v, c);
      FullByte(frames, f, offset, b);
      if !ts0[p][v].write {
        WrittenAlone(Seen(), ts0, p, v, c);
        WrittenAlone(Seen(), tables, p, v, c);
        SameContent(s0, p, v);
      }
      frames := frames[f := c];
      r := Done;
    }

    // ----- fork

    /** Maps the frames of a region into another process and counts one more user of each. */
    method MapShared(c: nat, r: Region)
      requires Counts(refs, tables) && c in tables && r.frame + r.pages <= |refs|
      requires forall v :: v in tables[c] ==> !Covers(r, v)
      modifies this`tables, this`refs
      ensures tables == old(tables)[c := old(tables)[c] + RunTable(r)]
      ensures |refs| == |old(refs)| && Counts(refs, tables) && SameBut(old(refs), refs, r.frame, r.pages)
    {
      hide Counts, RunTable, PteOf, Put;
      var t: Table, rc := tables[c], refs;
      RunEmpty(t, r);
      assert tables[c := t] == tables;
      for i := 0 to r.pages
        modifies {}
        invariant |rc| == |refs| && t == tables[c] + RunTable(FirstPages(r, i)) && Counts(rc, tables[c := t])
        invariant SameBut(refs, rc, r.frame, r.pages)
      {
        var e := Pte(r.frame + i, r.flags.write && !r.flags.cow, r.flags.other);
        RunKeys(tables[c], r, i);
        RunGrows(tables[c], r, i);
        assert e == PteOf(PageOf(r, r.base + i)) by {
          RunEntry(r, i, e);
        }
        MapOneMore(rc, tables, c, t, r.base + i, e);
        rc := rc[e.frame := rc[e.frame] + 1];
        t := Put(t, r.base + i, e);
      }
      assert FirstPages(r, r.pages) == r;
      tables, refs := tables[c := t], rc;
    }

    /** Takes the write right from every page of a region. */
    method MarkCow(p: nat, r: Region)
      requires Counts(refs, tables) && p in tables && r.flags.cow
      requires forall v: nat :: Covers(r, v) ==> v in tables[p] && tables[p][v].(write := false) == PteOf(PageOf(r, v))
      modifies this`tables
      ensures tables == old(tables)[p := old(tables)[p] + RunTable(r)] && Counts(refs, tables)
    {
      hide Counts, RunTable, PteOf, Put;
      var t: Table := tables[p];
      RunEmpty(t, r);
      for i := 0 to r.pages
        modifies {}
        invariant t == tables[p] + RunTable(FirstPages(r, i))
      {
        RunKeys(tables[p], r, i);
        RunGrows(tables[p], r, i);
        var e := t[r.base + i];
        if e.write {
          t := Put(t, r.base + i, e.(write := false));
        } else {
          PutSame(t, r.base + i);
        }
      }
      assert FirstPages(r, r.pages) == r;
      RunFrames(tables[p], r);
      SameFrames(refs, tables, p, t);
      tables := tables[p := t];
    }

    /** Shares one region of the parent with the child: neither may write to it any more. */
    method ShareRegion(p: nat, c: nat, k: nat)
      requires Sound() && p in tables && c in tables && p != c && k < |lists[p]|
      requires forall v: nat :: Find(lists[c], v) == Find(lists[p][..k], v)
      modifies this
      ensures Sound() && (old(Valid()) ==> Valid()) && frames == old(frames)
      ensures lists == SharedLists(old(lists), p, c, k) && tables.Keys == old(tables.Keys)
      ensures forall v: nat :: Find(lists[c], v) == Find(lists[p][..k + 1], v)
      ensures StillSeen(frames, old(lists), old(tables), lists, tables, {c})
    {
      hide Sane, Strict, Find, Shown, See, Counts, SharedTables, SharedLists, StillSeen, FullPages;
      SaneKeys(limit, frames, refs, lists, tables, kib);
      RegionPages(limit, frames, refs, lists, tables, kib, p, c, k);
      var r := lists[p][k];
      var m := r.(flags := r.flags.(cow := r.flags.cow || r.flags.write));
      ghost var ts0, refs0 := tables, refs;
      ShareTables(p, c, r, m);
      ShareStep(limit, frames, refs0, lists, ts0, kib, p, c, k, refs);
      lists := SharedLists(lists, p, c, k);
      kib := kib[c := kib[c] + 4 * m.pages];
    }

    /** Fork by sharing: the child sees exactly what the parent sees, and nobody else sees a change. */
    method Fork(p: nat, c: nat)
      requires Sound() && p in tables && c !in tables
      modifies this
      ensures Sound() && (old(Valid()) ==> Valid()) && frames == old(frames)
      ensures p in old(Seen()) && Seen() == Forked(old(Seen()), p, c)
      ensures p in lists && c in lists && lists[p] == AllMarked(old(lists)[p])
      ensures forall v: nat :: Find(lists[c], v) == Find(lists[p], v)
    {
      hide Sane, Strict, Find, Shown, See, StillSeen, Spaces, FullPages, HalfForked, MarkedTo;
      ghost var lists0, ts0 := lists, tables;
      SaneKeys(limit, frames, refs, lists, tables, kib);
      NewProcess(limit, frames, refs, lists, tables, kib, c);
      lists, tables, kib := lists[c := []], tables[c := map[]], kib[c := 0];
      var n := |lists[p]|;
      StartFork(frames, lists0, ts0, p, c);
      for k := 0 to n
        invariant Sound() && (old(Valid()) ==> Valid()) && frames == old(frames)
        invariant HalfForked(frames, lists0, ts0, lists, tables, p, c, k)
      {
        ShareNext(lists0, ts0, p, c, k);
      }
      HalfForkedAll(frames, lists0, ts0, lists, tables, p, c);
      ForkSeen(limit, frames, refs, lists0, ts0, lists, tables, kib, p, c);
    }

    method ShareNext(ghost lists0: RegionLists, ghost ts0: Tables, p: nat, c: nat, k: nat)
      requires Sound() && p in lists0 && k < |lists0[p]| && HalfForked(frames, lists0, ts0, lists, tables, p, c, k)
      modifies this
      ensures Sound() && (old(Valid()) ==> Valid()) && frames == old(frames)
      ensures HalfForked(frames, lists0, ts0, lists, tables, p, c, k + 1)
    {
      hide Sane, Strict, Find, Shown, See, StillSeen, Spaces, FullPages, MarkedTo;
      ghost var lists1, ts1 := lists, tables;
      ShareRegion(p, c, k);
      MarkedNext(lists0[p], k);
      SaneKeys(limit, frames, refs, lists, tables, kib);
      StillChain(frames, lists0, ts0, lists1, ts1, lists, tables, c);
    }

    method ShareTables(p: nat, c: nat, r: Region, m: Region)
      requires Counts(refs, tables) && p in tables && c in tables && p != c && m == Marked(r) && r.frame + r.pages <= |refs|
      requires forall v: nat :: Covers(r, v) ==> v in tables[p] && tables[p][v] == PteOf(PageOf(r, v))
      requires forall v :: v in tables[c] ==> !Covers(r, v)
      modifies this`tables, this`refs
      ensures tables == SharedTables(old(tables), p, c, m) && |refs| == |old(refs)| && Counts(refs, tables)
    {
      hide RunTable, Counts;
      ghost var ts0 := tables;
      MapShared(c, m);
      if r.flags.write {
        MarkCow(p, m);
      } else {
        AlreadyMarked(ts0[p], m);
        assert tables[p := ts0[p]] == tables;
      }
      SharedEither(ts0, p, c, m);
    }

    // ----- new mappings

    /** The first run of frames nobody uses, at `start` or after it, and else from the beginning. */
    method FindRun(n: nat, start: nat) returns (ok: bool, f: nat)
      ensures ok ==> RunFree(refs, f, n) && NextRun(refs, start, f, n)
      ensures !ok ==> forall h: nat :: !RunFree(refs, h, n)
      ensures ok ==> f + n <= |refs| && forall g :: f <= g < f + n ==> refs[g] == 0
      ensures !ok ==> !Frames(refs, n)
    {
      ok, f := LowestRun(n, start);
      if !ok {
        ok, f := LowestRun(n, 0);
        FramesAre(refs, n);
      }
    }

    method LowestRun(n: nat, start: nat) returns (ok: bool, f: nat)
      ensures ok ==> start <= f && RunFree(refs, f, n) && forall h: nat :: start <= h < f ==> !RunFree(refs, h, n)
      ensures !ok ==> forall h: nat :: start <= h ==> !RunFree(refs, h, n)
    {
      f := start;
      while f + n <= |refs|
        invariant start <= f && forall h: nat :: start <= h < f ==> !RunFree(refs, h, n)
        decreases |refs| - f
      {
        var i: nat := 0;
        while i < n && refs[f + i] == 0
          invariant i <= n && forall g :: f <= g < f + i ==> refs[g] == 0
        {
          i := i + 1;
        }
        if i == n {
          return true, f;
        }
        assert !RunFree(refs, f, n) by {
          assert refs[f + i] != 0;
        }
        f := f + 1;
      }
      ok := false;
    }

    /** Gives a process a run of fresh frames with the given contents. */
    method AddRun(p: nat, r: Region, contents: seq<Page>)
      requires Sound() && p in tables && p in lists && FreshRun(refs, r, contents) && r.pages > 0 && End(r) < limit
      requires Free(lists[p], r.base, r.pages) && FullPages(contents)
      modifies this
      ensures Sound() && (old(Valid()) ==> Valid()) && p in old(Seen()) && lists == old(lists)[p := [r] + old(lists)[p]] && SameBut(old(refs), refs, r.frame, r.pages)
      ensures Seen() == Put(old(Seen()), p, Extended(old(Seen())[p], r.base, contents, r.flags.write, r.flags.other))
    {
      hide Sane, Strict, Shown, Spaces, FreshRun, Counts, RunTable, Overwrite, Extended, Free, StillSeen, FullPages;
      SaneProcess(limit, frames, refs, lists, tables, kib, p);
      FreshSize(limit, frames, refs, lists, tables, kib, r, contents);
      NewPages(limit, lists[p], tables[p], kib[p], r);
      ghost var refs0, ts0 := refs, tables;
      MapShared(p, r);
      FreshStep(limit, frames, refs0, lists, ts0, kib, p, r, contents, refs);
      FullRun(frames, r.frame, contents);
      frames := Overwrite(frames, r.frame, contents);
      lists, kib := lists[p := [r] + lists[p]], kib[p := kib[p] + 4 * r.pages];
    }

    /**
     * Maps private anonymous memory: zero pages at the hint when it is free, otherwise at the
     * lowest free place.  Everything mapped before stays as it was.
     */
    method Mmap(p: nat, hint: nat, fixed: bool, pages: nat, write: bool, other: nat, stackBase: nat, stackPages: nat)
      returns (ok: bool, addr: nat)
      requires Sound() && p in tables && p in lists
      modifies this
      ensures Sound() && (old(Valid()) ==> Valid()) && p in old(Seen())
      ensures !ok ==> unchanged(this)
      ensures ok ==> pages > 0 && addr > 0 && addr + pages <= stackBase && addr + pages < limit
      ensures ok ==> forall v: nat :: addr <= v < addr + pages ==> v !in old(Seen())[p]
      ensures ok ==> Seen() == Put(old(Seen()), p, Extended(old(Seen())[p], addr, ZeroPages(pages), write, other))
      ensures ok ==> Placed(old(lists)[p], hint, fixed, pages, stackBase, stackPages, limit, addr)
      ensures !ok ==> pages == 0 || Placed(lists[p], hint, fixed, pages, stackBase, stackPages, limit, 0) || NoRun(refs, pages)
      ensures ok && hint != 0 ==> hint + pages <= stackBase && hint + pages < limit
      ensures ok && (fixed || (hint != 0 && forall v: nat :: hint <= v < hint + pages ==> v !in old(Seen())[p])) ==> addr == hint
      ensures pages > 0 && Frames(old(refs), pages) && hint != 0 && hint + pages <= stackBase && hint + pages < limit ==>
                (forall v: nat :: hint <= v < hint + pages ==> v !in old(Seen())[p]) ==> ok
      ensures pages > 0 && Frames(old(refs), pages) && hint == 0 && !fixed ==>
                forall a: nat :: Behind(old(lists)[p], stackBase, stackPages, a) && a >= 0x400 && a + pages <= stackBase && a + pages < limit ==> ok
    {
      hide Sane, Strict, Shown, Spaces, FreshRun, Extended, Free, Placed, FullPages, Behind, Frames;
      SaneProcess(limit, frames, refs, lists, tables, kib, p);
      SeenProcess(p);
      if pages == 0 {
        return false, 0;
      }
      TiledList(limit, lists[p], tables[p], kib[p]);
      FreeUnseen(p, hint, pages);
      if a: nat :| Behind(lists[p], stackBase, stackPages, a) && a >= 0x400 && a + pages <= stackBase && a + pages < limit {
        RoomBehind(lists[p], pages, stackBase, stackPages, limit, a);
      }
      ok, addr := Place(lists[p], hint, fixed, pages, stackBase, stackPages, limit);
      if !ok {
        return;
      }
      var f;
      ok, f := FindRun(pages, 0);
      if !ok {
        return;
      }
      FreeUnseen(p, addr, pages);
      var r := Region(addr, f, pages, Flags(write, false, other));
      FreshAre(refs, r, ZeroPages(pages));
      FullZeros(pages);
      AddRun(p, r, ZeroPages(pages));
    }

    /** Copies what a process sees in one region. */
    method CopyPages(p: nat, r: Region) returns (contents: seq<Page>)
      requires Sound() && p in tables && forall v: nat :: Covers(r, v) ==> v in tables[p]
      ensures |contents| == r.pages && FullPages(contents)
      ensures forall v: nat :: Covers(r, v) ==> tables[p][v].frame < |frames| && contents[v - r.base] == frames[tables[p][v].frame]
    {
      hide Find, Process;
      SaneShown(limit, frames, refs, lists, tables, kib);
      var fr, t := frames, tables[p];
      contents := seq(r.pages, i requires 0 <= i < r.pages => fr[t[r.base + i].frame]);
      forall v: nat | Covers(r, v)
        ensures tables[p][v].frame < |frames| && contents[v - r.base] == frames[tables[p][v].frame]
      {
        assert r.base + (v - r.base) == v;
      }
    }

    // ----- taking pages away

    /** Unmaps pages one by one and counts one user less of each frame. */
    method ReleasePages(p: nat, lo: nat, hi: nat)
      requires Counts(refs, tables) && p in tables && lo <= hi && forall v: nat :: lo <= v < hi ==> v in tables[p]
      modifies this`tables, this`refs
      ensures tables == old(tables)[p := Without(old(tables)[p], lo, hi)]
      ensures |refs| == |old(refs)| && Counts(refs, tables)
    {
      hide Counts, Without;
      var t: Table, rc := tables[p], refs;
      WithoutNone(t, lo);
      assert tables[p := t] == tables;
      for v := lo to hi
        modifies {}
        invariant |rc| == |refs| && t == Without(tables[p], lo, v) && Counts(rc, tables[p := t])
      {
        WithoutNext(tables[p], lo, v);
        UnmapOneMore(rc, tables, p, t, v);
        var f := t[v].frame;
        rc, t := rc[f := rc[f] - 1], t - {v};
      }
      tables, refs := tables[p := t], rc;
    }

    /** One region loses the pages from `lo` up to `hi`. */
    method CutRegion(p: nat, k: nat, lo: nat, hi: nat)
      requires Sound() && p in tables && p in lists && k < |lists[p]| && lists[p][k].base <= lo <= hi <= End(lists[p][k])
      modifies this
      ensures Sound() && (old(Valid()) ==> Valid()) && p in old(Seen()) && frames == old(frames)
      ensures lists == old(lists)[p := CutList(old(lists)[p], k, lo, hi)] && tables.Keys == old(tables.Keys)
      ensures Seen() == Put(old(Seen()), p, Without(old(Seen())[p], lo, hi))
      ensures forall v: nat :: Find(lists[p], v) == if lo <= v < hi then None else Find(old(lists)[p], v)
    {
      hide Sane, Strict, Shown, Spaces, Counts, Without, CutList, Find, Process, FullPages;
      SaneProcess(limit, frames, refs, lists, tables, kib, p);
      SaneSize(limit, frames, refs, lists, tables, kib);
      SharePages(limit, lists[p], tables[p], kib[p], k);
      ghost var refs0, ts0 := refs, tables;
      ReleasePages(p, lo, hi);
      CutStep(limit, frames, refs0, lists, ts0, kib, p, k, lo, hi, refs);
      lists := lists[p := CutList(lists[p], k, lo, hi)];
      kib := kib[p := SubtractOrZero(kib[p], 4 * (hi - lo))];
    }

    /**
     * Unmaps a range: exactly its pages go, and the call is refused when none of them was mapped.
     */
    method Munmap(p: nat, lo: nat, pages: nat) returns (ok: bool)
      requires Sound() && p in tables && p in lists
      modifies this
      ensures Sound() && (old(Valid()) ==> Valid()) && p in old(Seen())
      ensures Seen() == if ok then Put(old(Seen()), p, Without(old(Seen())[p], lo, lo + pages)) else old(Seen())
      ensures ok <==> 0 < lo && lo + pages < limit && exists v: nat :: lo <= v < lo + pages && v in old(Seen())[p]
    {
      hide Sane, Strict, Shown, Spaces, Counts, Without, CutList, Find, Process, ClearedTo, Thinned, Parts, FullPages;
      SeenProcess(p);
      if lo == 0 || pages == 0 || lo + pages >= limit {
        return false;
      }
      var hi: nat, k: nat := lo + pages, 0;
      ghost var s0 := Seen();
      ok := false;
      StartCleared(lists[p], lo, hi);
      ThinStart(s0, p, lo, hi);
      while k < |lists[p]|
        invariant Sound() && (old(Valid()) ==> Valid()) && p in tables && p in lists && p in Seen() && k <= |lists[p]|
        invariant Seen() == Put(s0, p, Seen()[p]) && Thinned(s0[p], Seen()[p], lo, hi)
        invariant !ok ==> Seen() == s0
        invariant ok ==> exists v: nat :: lo <= v < hi && v in s0[p]
        invariant ClearedTo(lists[p], k, lo, hi)
        decreases |lists[p]| - k
      {
        var r := lists[p][k];
        var left, right := if lo > r.base then lo else r.base, if hi < End(r) then hi else End(r);
        if left >= right {
          SkipCleared(lists[p], k, lo, hi);
          k := k + 1;
        } else {
          ghost var s1 := Seen();
          CutCleared(lists[p], k, lo, hi, left, right);
          RegionSeen(p, k, left);
          CutRegion(p, k, left, right);
          SeenProcess(p);
          ThinMore(s0, s1, p, lo, hi, left, right);
          ok := true;
          k := k + |Parts(r, left, right, [])|;
        }
      }
      AllCleared(p, lo, hi);
      SeenProcess(p);
      ThinDone(s0[p], Seen()[p], lo, hi);
    }

    /** Tears a process down: its frames lose one user each, and nobody else sees a change. */
    method Exit(p: nat)
      requires Sound() && p in tables && p in lists
      modifies this
      ensures Sound() && (old(Valid()) ==> Valid()) && Seen() == old(Seen()) - {p}
    {
      hide Sane, Strict, Shown, Spaces, CutList, Find, Process, FullPages;
      SeenProcess(p);
      ghost var s0 := Seen();
      while lists[p] != []
        invariant Sound() && (old(Valid()) ==> Valid()) && p in tables && p in lists && p in Seen() && Seen() == Put(s0, p, Seen()[p])
        decreases |lists[p]|
      {
        var r := lists[p][0];
        CutWhole(lists[p]);
        CutRegion(p, 0, r.base, End(r));
        SeenProcess(p);
      }
      SaneKeys(limit, frames, refs, lists, tables, kib);
      LastGone(limit, frames, refs, lists, tables, kib, p);
      GoneAfter(s0, Seen(), p);
      lists, tables, kib := lists - {p}, tables - {p}, kib - {p};
    }

    /**
     * Fork by copying, used before frames are counted, when no page is marked copy-on-write.
     * Frames are searched for from `start`, then each time from behind the last ones taken.
     * When it succeeds everybody sees exactly what they would see after a fork by sharing.
     */
    method ForkCopy(p: nat, c: nat, start: nat) returns (ok: bool)
      requires Sound() && p in tables && p in lists && c !in tables && NoneShared(lists[p])
      modifies this
      ensures Sound() && (old(Valid()) ==> Valid()) && p in old(Seen())
      ensures Seen() == if ok then Forked(old(Seen()), p, c) else old(Seen())
      ensures RunAfter(old(refs), start, Total(old(lists)[p])) ==> ok
    {
      hide Sane, Strict, Shown, Spaces, Find, Process, StillSeen, Extended, FreshRun, Free, NoRun, RunAfter, FullPages;
      SeenProcess(p);
      ghost var s0 := Seen();
      ghost var enough := RunAfter(refs, start, Total(lists[p]));
      var next := start;
      SaneKeys(limit, frames, refs, lists, tables, kib);
      NewProcess(limit, frames, refs, lists, tables, kib, c);
      NewSeen(frames, lists, tables, c);
      var rs := lists[p];
      lists, tables, kib := lists[c := []], tables[c := map[]], kib[c := 0];
      PrefixStart(s0[p], rs);
      for k := 0 to |rs|
        invariant Sound() && (old(Valid()) ==> Valid()) && p in tables && c in tables && p in lists && c in lists && lists[p] == rs
        invariant Seen() == Put(s0, c, PrefixSpace(s0[p], rs[..k]))
        invariant enough ==> RunAfter(refs, next, Total(rs[k..]))
      {
        assert Total(rs[k..]) == rs[k].pages + Total(rs[k + 1..]) by {
          assert rs[k..][1..] == rs[k + 1..];
        }
        if enough { RunPart(refs, next, rs[k].pages, Total(rs[k..])); }
        ok, next := CopyRegion(p, c, k, next, s0);
        if !ok {
          Exit(c);
          Discarded(s0, c, Seen());
          return;
        }
      }
      ok := true;
      PrefixEnd(p, s0, rs);
    }

    /** Copies one region into fresh frames of the child. */
    method CopyRegion(p: nat, c: nat, k: nat, start: nat, ghost s0: map<nat, Space>) returns (ok: bool, next: nat)
      requires Sound() && p in tables && c in tables && p in lists && c in lists && p != c
      requires k < |lists[p]| && NoneShared(lists[p]) && p in s0 && Seen() == Put(s0, c, PrefixSpace(s0[p], lists[p][..k]))
      modifies this
      ensures Sound() && (old(Valid()) ==> Valid()) && lists.Keys == old(lists.Keys) && tables.Keys == old(tables.Keys)
      ensures ok ==> lists[p] == old(lists)[p] && Seen() == Put(s0, c, PrefixSpace(s0[p], lists[p][..k + 1]))
      ensures !ok ==> unchanged(this) && NoRun(refs, lists[p][k].pages)
      ensures ok ==> forall t: nat :: lists[p][k].pages <= t && RunAfter(old(refs), start, t) ==> RunAfter(refs, next, t - lists[p][k].pages)
    {
      hide Sane, Strict, Shown, Spaces, Find, Process, Extended, FreshRun, Free, PrefixSpace, NoRun, RunAfter, SameBut, FullPages;
      var r := lists[p][k];
      ghost var refs0 := refs;
      var f;
      ok, f := FindRun(r.pages, start);
      next := if f + r.pages < |refs| then f + r.pages else 0;
      if !ok {
        NoRunIs(refs, r.pages);
        return;
      }
      SaneKeys(limit, frames, refs, lists, tables, kib);
      RegionIs(p, k);
      var contents := CopyPages(p, r);
      FreshAre(refs, r.(frame := f), contents);
      CopyFree(p, c, k, s0);
      CopiedSpace(p, k, s0[p], contents);
      AddRun(c, r.(frame := f), contents);
      SaneKeys(limit, frames, refs, lists, tables, kib);
      forall t: nat | r.pages <= t && RunAfter(refs0, start, t)
        ensures RunAfter(refs, next, t - r.pages)
      {
        RunLeft(refs0, refs, start, f, r.pages, t);
      }
    }

    lemma RegionIs(p: nat, k: nat)
      requires Sound() && p in tables && p in lists && k < |lists[p]|
      ensures lists[p][k].pages > 0 && End(lists[p][k]) < limit
      ensures forall v: nat :: Covers(lists[p][k], v) ==> v in tables[p] && tables[p][v] == PteOf(PageOf(lists[p][k], v))
    {
      hide Sane, Find, Process;
      SaneProcess(limit, frames, refs, lists, tables, kib, p);
      SharePages(limit, lists[p], tables[p], kib[p], k);
      TiledList(limit, lists[p], tables[p], kib[p]);
    }

    lemma CopyFree(p: nat, c: nat, k: nat, s0: map<nat, Space>)
      requires Sound() && p in tables && c in tables && p in lists && c in lists && k < |lists[p]| && p in s0
      requires Seen() == Put(s0, c, PrefixSpace(s0[p], lists[p][..k]))
      ensures Free(lists[c], lists[p][k].base, lists[p][k].pages)
    {
      hide Sane, Find, Process, Spaces, Free, Tiled;
      SaneProcess(limit, frames, refs, lists, tables, kib, p);
      SaneProcess(limit, frames, refs, lists, tables, kib, c);
      TiledList(limit, lists[p], tables[p], kib[p]);
      TiledList(limit, lists[c], tables[c], kib[c]);
      SeenProcess(c);
      forall v: nat | Covers(lists[p][k], v)
        ensures Find(lists[c], v) == None
      {
        NotBefore(limit, lists[p], k, v);
        ProcessLinked(limit, lists[c], tables[c], kib[c]);
        Unmapped(lists[c], tables[c], v);
      }
      FreeMeans(lists[c], lists[p][k].base, lists[p][k].pages, limit);
    }

    lemma CopiedSpace(p: nat, k: nat, s: Space, contents: seq<Page>)
      requires Sound() && p in tables && p in lists && k < |lists[p]| && p in Seen() && Seen()[p] == s
      requires |contents| == lists[p][k].pages && forall v: nat :: Covers(lists[p][k], v) ==> v in tables[p]
      requires forall v: nat :: Covers(lists[p][k], v) ==> tables[p][v].frame < |frames| && contents[v - lists[p][k].base] == frames[tables[p][v].frame]
      ensures var r := lists[p][k];
              Extended(PrefixSpace(s, lists[p][..k]), r.base, contents, r.flags.write, r.flags.other) == PrefixSpace(s, lists[p][..k + 1])
    {
      hide Sane, Find, Process, Spaces, Tiled;
      var r := lists[p][k];
      SaneProcess(limit, frames, refs, lists, tables, kib, p);
      TiledList(limit, lists[p], tables[p], kib[p]);
      forall v: nat | Covers(r, v)
        ensures v in s && s[v] == FreshView(r.base, contents, r.flags.write, r.flags.other, v)
        ensures Find(lists[p][..k], v) == None
      {
        RegionPage(limit, frames, refs, lists, tables, kib, p, k, v);
        PageIs(limit, frames, refs, lists, tables, kib, p, v);
        PageOther(limit, frames, refs, lists, tables, kib, p, v);
        NotBefore(limit, lists[p], k, v);
      }
      PrefixMore(s, lists[p], k, contents);
    }

    lemma PrefixEnd(p: nat, s0: map<nat, Space>, rs: seq<Region>)
      requires Sound() && p in tables && p in lists && lists[p] == rs && p in s0 && p in Seen() && Seen()[p] == s0[p]
      ensures PrefixSpace(s0[p], rs[..|rs|]) == s0[p]
    {
      hide Sane, Find, Process, Spaces;
      SaneProcess(limit, frames, refs, lists, tables, kib, p);
      ProcessLinked(limit, lists[p], tables[p], kib[p]);
      SeenProcess(p);
      assert rs[..|rs|] == rs;
      forall v | v in s0[p]
        ensures Find(rs, v).Some?
      {
        Unmapped(rs, tables[p], v);
      }
    }

    // ----- changing rights

    /** Whether every page of a range is mapped: region by region. */
    method RangeMapped(p: nat, lo: nat, hi: nat) returns (mapped: bool)
      requires Sound() && p in lists
      ensures mapped <==> forall v: nat :: lo <= v < hi ==> Mapped(lists[p], v)
    {
      hide Sane, Find, Tiled;
      SaneKeys(limit, frames, refs, lists, tables, kib);
      SaneProcess(limit, frames, refs, lists, tables, kib, p);
      TiledList(limit, lists[p], tables[p], kib[p]);
      var addr := lo;
      while addr < hi
        invariant lo <= addr && forall v: nat :: lo <= v < addr && v < hi ==> Mapped(lists[p], v)
        decreases hi - addr
      {
        var found, k := FindRegion(p, addr);
        if !found {
          assert !Mapped(lists[p], addr);
          return false;
        }
        var r := lists[p][k];
        forall v: nat | Covers(r, v)
          ensures Mapped(lists[p], v)
        {
          FindSome(lists[p], k, v, limit);
        }
        addr := Right(r, hi);
      }
      mapped := true;
    }

    /** How many list nodes the change will need. */
    method CountSplits(p: nat, lo: nat, hi: nat) returns (count: nat)
      requires p in lists
      ensures count == SplitCount(lists[p], lo, hi)
    {
      count := 0;
      var k: nat := 0;
      while k < |lists[p]|
        invariant k <= |lists[p]| && count + SplitCount(lists[p][k..], lo, hi) == SplitCount(lists[p], lo, hi)
      {
        assert lists[p][k..][1..] == lists[p][k + 1..];
        count := count + NodesFor(lists[p][k], lo, hi);
        k := k + 1;
      }
    }

    /** Maps the pages of a region again, with its rights. */
    method Remap(p: nat, r: Region)
      requires Counts(refs, tables) && p in tables
      requires forall v: nat :: Covers(r, v) ==> v in tables[p] && tables[p][v].frame == PageOf(r, v).frame
      modifies this`tables
      ensures tables == old(tables)[p := old(tables)[p] + RunTable(r)] && Counts(refs, tables)
    {
      hide Counts, RunTable, PteOf, Put;
      var t: Table := tables[p];
      RunEmpty(t, r);
      for i := 0 to r.pages
        modifies {}
        invariant t == tables[p] + RunTable(FirstPages(r, i))
      {
        RunGrows(tables[p], r, i);
        var e := Pte(r.frame + i, r.flags.write && !r.flags.cow, r.flags.other);
        RunEntry(r, i, e);
        RunEntry(r.(pages := i + 1), i, e);
        t := Put(t, r.base + i, e);
      }
      assert FirstPages(r, r.pages) == r;
      RemapFrames(tables[p], r);
      SameFrames(refs, tables, p, t);
      tables := tables[p := t];
    }

    /** New rights for some pages of one region. */
    method ProtectRegion(p: nat, k: nat, lo: nat, hi: nat, write: bool, other: nat)
      requires Sound() && p in tables && p in lists && k < |lists[p]| && lists[p][k].base <= lo < hi <= End(lists[p][k])
      modifies this`lists, this`tables
      ensures Sound() && p in tables && tables == Put(old(tables), p, tables[p])
      ensures lists == Put(old(lists), p, ProtectList(old(lists)[p], k, lo, hi, write, other))
    {
      hide Sane, Find, Process, Counts, RunTable, ProtectList;
      SaneProcess(limit, frames, refs, lists, tables, kib, p);
      SaneSize(limit, frames, refs, lists, tables, kib);
      var r := lists[p][k];
      var m := ProtectedPart(r, lo, hi, write, other);
      RegionIs(p, k);
      ghost var ts0 := tables;
      ProtectProcess(limit, lists[p], ts0[p], kib[p], k, lo, hi, write, other);
      Remap(p, m);
      OneProcess(limit, frames, refs, lists, ts0, kib, p, frames, refs, ProtectList(lists[p], k, lo, hi, write, other), tables[p], kib[p]);
      lists := lists[p := ProtectList(lists[p], k, lo, hi, write, other)];
      assert kib[p := kib[p]] == kib;
    }

    /**
     * Changes the rights of a range, which must be mapped throughout.  Exactly its pages change,
     * the list nodes counted beforehand are exactly those used, and afterwards every next store
     * is answered and seen as if nothing were shared exactly when the change is tame.
     */
    method Mprotect(p: nat, lo: nat, pages: nat, write: bool, other: nat) returns (ok: bool)
      requires Sound() && p in tables && p in lists
      modifies this`lists, this`tables
      ensures Sound() && p in old(Seen())
      ensures ok <==> 0 < lo && 0 < pages && lo + pages < limit && forall v: nat :: lo <= v < lo + pages ==> v in old(Seen())[p]
      ensures !ok ==> unchanged(this)
      ensures ok ==> Seen() == Put(old(Seen()), p, Reprotected(old(Seen())[p], lo, lo + pages, write, other))
      ensures ok ==> Reshaped(old(lists), old(tables), lists, tables, p, lo, lo + pages, write, other)
      ensures ok && old(Valid()) ==> (Valid() <==> Tame(old(lists), old(tables), p, lo, lo + pages, write))
      ensures ok && old(Valid()) ==> (Trustworthy() <==> Tame(old(lists), old(tables), p, lo, lo + pages, write))
    {
      hide Sane, Isolated, Honest, Find, Process, Spaces, Shown, Reprotected, Reshaped, SafeToWrite, NoneMarked, FullPages, Faithful;
      SeenProcess(p);
      MappedSeen(p, lo, lo + pages);
      if lo == 0 || pages == 0 || lo + pages >= limit {
        return false;
      }
      var hi := lo + pages;
      ok := RangeMapped(p, lo, hi);
      if !ok {
        return;
      }
      ghost var lists0, ts0 := lists, tables;
      ProtectRange(p, lo, hi, write, other);
      ReshapedNow(limit, frames, refs, lists0, ts0, lists, tables, kib, p, lo, hi, write, other);
      ReshapedSeen(limit, frames, refs, lists0, ts0, lists, tables, kib, p, lo, hi, write, other);
      if old(Valid()) {
        ProtectIsolated(lists0, ts0, lists, tables, p, lo, hi, write, other);
        ProtectHonest(lists0, ts0, lists, tables, p, lo, hi, write, other);
        FaithfulStates(limit, frames, refs, lists, tables, kib);
      }
    }

    /** Walks the list once, splitting and remapping every region the range touches; the nodes counted
        beforehand are exactly those that the list grows by. */
    method ProtectRange(p: nat, lo: nat, hi: nat, write: bool, other: nat)
      requires Sound() && p in tables && p in lists
      modifies this`lists, this`tables
      ensures Sound() && p in tables && p in lists && lists == Put(old(lists), p, lists[p]) && tables == Put(old(tables), p, tables[p])
      ensures |lists[p]| == |old(lists)[p]| + SplitCount(old(lists)[p], lo, hi)
      ensures forall v: nat :: Find(lists[p], v) ==
                                 (if lo <= v < hi then Reflagged(Find(old(lists)[p], v), write, other) else Find(old(lists)[p], v))
    {
      hide Sane, Find, Process, SplitCount, NodesFor, ProtectList, HalfDone, Parts, Left, Right, Put;
      var nodes := CountSplits(p, lo, hi);
      var k: nat := 0;
      ghost var lists0, ts0 := lists, tables;
      HalfStart(lists[p], lo, hi, write, other);
      assert lists[p][0..] == lists[p];
      PutSelf(lists, p);
      PutSelf(tables, p);
      while k < |lists[p]|
        invariant Sound() && p in tables && p in lists && k <= |lists[p]|
        invariant lists == Put(lists0, p, lists[p]) && tables == Put(ts0, p, tables[p])
        invariant HalfDone(lists0[p], lists[p], k, lo, hi, write, other) && nodes == SplitCount(lists[p][k..], lo, hi)
        invariant |lists[p]| + nodes == |lists0[p]| + SplitCount(lists0[p], lo, hi)
        decreases |lists[p]| - k
      {
        ghost var lists1, ts1 := lists, tables;
        var used := ProtectNext(p, k, lo, hi, write, other, lists0[p]);
        PutTwice(lists0, lists1, lists, p);
        PutTwice(ts0, ts1, tables, p);
        nodes, k := nodes - used, k + 1 + used;
      }
      NoNodesLeft(lists[p], lo, hi);
      HalfEnd(lists0[p], lists[p], lo, hi, write, other);
    }

    /** New rights for the part of one region that lies in the range; says how many list nodes that took. */
    method ProtectNext(p: nat, k: nat, lo: nat, hi: nat, write: bool, other: nat, ghost rs0: seq<Region>) returns (used: nat)
      requires Sound() && p in tables && p in lists && k < |lists[p]|
      requires HalfDone(rs0, lists[p], k, lo, hi, write, other)
      modifies this`lists, this`tables
      ensures Sound() && p in tables && p in lists && lists == Put(old(lists), p, lists[p]) && tables == Put(old(tables), p, tables[p])
      ensures |lists[p]| == |old(lists)[p]| + used && k + 1 + used <= |lists[p]|
      ensures HalfDone(rs0, lists[p], k + 1 + used, lo, hi, write, other)
      ensures SplitCount(old(lists)[p][k..], lo, hi) == used + SplitCount(lists[p][k + 1 + used..], lo, hi)
    {
      hide Sane, Find, Process, SplitCount, NodesFor, ProtectList, HalfDone, Parts, Left, Right;
      var r := lists[p][k];
      PutSelf(lists, p);
      PutSelf(tables, p);
      NodesLeft(lists[p], k, lo, hi);
      used := 0;
      if Left(r, lo) >= Right(r, hi) {
        NoNodes(r, lo, hi);
        HalfSkip(rs0, lists[p], k, lo, hi, write, other);
      } else {
        SaneProcess(limit, frames, refs, lists, tables, kib, p);
        TiledList(limit, lists[p], tables[p], kib[p]);
        SomeNodes(r, lo, hi);
        HalfStep(limit, rs0, lists[p], k, lo, hi, write, other);
        ListGrows(lists[p], k, lo, hi, write, other);
        used := (if Left(r, lo) > r.base then 1 else 0) + (if Right(r, hi) < End(r) then 1 else 0);
        ProtectRegion(p, k, Left(r, lo), Right(r, hi), write, other);
      }
    }

    /** Decides whether a change of rights is tame by looking at marks and counts. */
    method IsTame(p: nat, lo: nat, hi: nat, write: bool) returns (tame: bool)
      requires Sound() && p in tables && p in lists
      ensures tame <==> Tame(lists, tables, p, lo, hi, write)
    {
      hide Sane, Find, Exclusive;
      SaneKeys(limit, frames, refs, lists, tables, kib);
      TameEmpty(lists, tables, p, lo, write);
      tame := true;
      var v := lo;
      while v < hi
        invariant lo <= v && (v <= hi || v == lo) && (tame <==> Tame(lists, tables, p, lo, v, write))
      {
        PageIs(limit, frames, refs, lists, tables, kib, p, v);
        var found, k := FindRegion(p, v);
        if found {
          RegionPage(limit, frames, refs, lists, tables, kib, p, k, v);
          SaneSize(limit, frames, refs, lists, tables, kib);
          ExclusiveCount(refs, tables, p, v);
          var cow := lists[p][k].flags.cow;
          if write && !cow && refs[tables[p][v].frame] != 1 {
            tame := false;
          }
          if !write && cow {
            tame := false;
          }
        }
        TameNext(lists, tables, p, lo, v, write);
        v := v + 1;
      }
    }

    // ----- whole runs

    ghost function Now(): Snapshot
      reads this
    {
      Snapshot(frames, refs, lists, tables, kib)
    }

    lemma SeenKeys()
      requires Sound()
      ensures Seen().Keys == tables.Keys
    {
    }

    lemma SnapshotIs()
      ensures SoundAt(limit, Now()) <==> Sound()
      ensures Sound() ==> SeenAt(limit, Now()) == Seen() && (ValidAt(limit, Now()) <==> Valid())
    {
    }

    /** One call of a run. */
    method Step(op: Op) returns (r: Result)
      requires Sound()
      modifies this
      ensures Sound() && Did(limit, old(Now()), op, r, Now())
    {
      hide Sane, Strict, Spaces, Shown, Find, Tame, FullPages, NoRun, Placed, Extended, Without, Reprotected, Short;
      SaneKeys(limit, frames, refs, lists, tables, kib);
      SeenKeys();
      r := Result(Fault, 0);
      match op {
        case StoreOp(p, v, offset, b) =>
          r := StoreCall(op);
        case ForkOp(p, c) =>
          if p in tables && c !in tables {
            Fork(p, c);
            r := Result(Done, 0);
          }
        case MmapOp(p, hint, fixed, pages, write, other, stackBase, stackPages) =>
          if p in tables {
            r := MapCall(op);
          }
        case MunmapOp(p, lo, pages) =>
          if p in tables {
            var ok := Munmap(p, lo, pages);
            r := Result(if ok then Done else Fault, 0);
          }
        case ProtectOp(p, lo, pages, write, other) =>
          if p in tables {
            r := ProtectCall(op);
          }
        case ExitOp(p) =>
          if p in tables {
            Exit(p);
            r := Result(Done, 0);
          }
      }
    }

    method StoreCall(op: Op) returns (r: Result)
      requires Sound() && op.StoreOp?
      modifies this
      ensures Sound() && Did(limit, old(Now()), op, r, Now())
    {
      hide Sane, Strict, Spaces, Shown, FullPages, StoreOutcome, AfterStore, Apply, Short, Writable;
      ghost var m := Now();
      if Valid() {
        StrictFits(limit, frames, refs, lists, tables, kib, op.p, op.v, op.offset, op.b);
      }
      var o := Store(op.p, op.v, op.offset, op.b);
      r := Result(o, 0);
      StoreShort(m.lists, m.refs, m.tables, op, limit);
    }

    method MapCall(op: Op) returns (r: Result)
      requires Sound() && op.MmapOp? && op.p in tables && op.p in lists
      modifies this
      ensures Sound() && Did(limit, old(Now()), op, r, Now())
    {
      hide Sane, Strict, Spaces, Shown, FullPages, NoRun, Placed, Extended, Short;
      SeenKeys();
      var ok, addr := Mmap(op.p, op.hint, op.fixed, op.pages, op.write, op.other, op.stackBase, op.stackPages);
      r := Result(if ok then Done else NoMemory, addr);
      if !ok { MapShort(lists, refs, op, limit); }
    }

    method ProtectCall(op: Op) returns (r: Result)
      requires Sound() && op.ProtectOp? && op.p in tables && op.p in lists
      modifies this
      ensures Sound() && Did(limit, old(Now()), op, r, Now())
    {
      hide Sane, Strict, Spaces, Shown, FullPages, Tame, Reprotected, Reshaped, Faithful, Short;
      SeenKeys();
      var ok := Mprotect(op.p, op.lo, op.pages, op.write, op.other);
      r := Result(if ok then Done else Fault, 0);
    }

    /**
     * Any run of stores, forks, mappings, unmappings, protection changes and exits, from a state that
     * keeps the rules of copy-on-write.  Up to the first protection change that is not tame all processes
     * see, and every call answers, what they would if fork copied every page; and at every point of the
     * run that holds for whatever store could come next exactly when no such change has succeeded.
     */
    method Run(ops: seq<Op>) returns (results: seq<Result>, ghost trace: seq<Snapshot>)
      requires Valid()
      modifies this
      ensures Sound() && Traced(limit, ops, results, trace) && trace[0] == old(Now()) && trace[|ops|] == Now()
      ensures (forall n :: 0 <= n <= |ops| ==> FaithfulAt(limit, trace[n])) <==> Tamed(ops, results, trace, |ops|)
      ensures forall n :: 0 <= n <= |ops| && Tamed(ops, results, trace, n) ==> Copying(limit, ops, results, trace, n)
      ensures Tamed(ops, results, trace, |ops|) ==> Valid() && Seen() == ApplyAll(old(Seen()), ops, results)
    {
      hide Sane, Strict, Spaces, Shown, Tame, FullPages, Apply, Agrees, Did, Faithful, Copying, FaithfulAt, ValidAt;
      results, trace := [], [Now()];
      ghost var m0 := Now();
      SnapshotIs();
      for n := 0 to |ops|
        invariant Sound() && Traced(limit, ops[..n], results, trace) && trace[0] == m0 && trace[n] == Now()
      {
        var r := Step(ops[n]);
        TraceMore(limit, ops, n, results, trace, r, Now());
        results, trace := results + [r], trace + [Now()];
      }
      assert ops[..|ops|] == ops;
      SnapshotIs();
      RunFaithful(limit, ops, results, trace);
      forall n | 0 <= n <= |ops| && Tamed(ops, results, trace, n)
        ensures Copying(limit, ops, results, trace, n)
      {
        RunCopies(limit, ops, results, trace, n);
      }
      if Tamed(ops, results, trace, |ops|) {
        CopyingEnd(limit, ops, results, trace);
      }
    }

    // ----- changes of rights that are not tame

    /** A fork, then new rights for one page of the parent: the page stays shared, and is marked exactly when it was writable. */
    method ForkThenProtect(p: nat, c: nat, v: nat, write: bool, other: nat)
      requires Valid() && p in Seen() && c !in Seen() && v in Seen()[p] && 0 < v && v + 1 < limit
      modifies this
      ensures Sound() && Seen() == AfterBoth(old(Seen()), p, c, v, write, other)
      ensures p in tables && c in tables && v in tables[p] && v in tables[c] && tables[c][v].frame == tables[p][v].frame
      ensures Shared(lists, p, v) <==> old(Seen())[p][v].write
    {
      hide Sane, Strict, Spaces, Shown, Find, FullPages, Tame, Reshaped, Faithful, Exclusive, Forked, Reprotected, Regranted;
      SeenKeys();
      SeenProcess(p);
      PageIs(limit, frames, refs, lists, tables, kib, p, v);
      StrictPage(lists, tables, p, v);
      MarkedPage(lists[p], v);
      Fork(p, c);
      SaneKeys(limit, frames, refs, lists, tables, kib);
      PageIs(limit, frames, refs, lists, tables, kib, p, v);
      SameEntry(limit, frames, refs, lists, tables, kib, p, c, v);
      ghost var ts1: Tables, lists1: RegionLists := tables, lists;
      SeenProcess(p);
      var ok := Mprotect(p, v, 1, write, other);
      ReshapedPage(lists1, ts1, lists, tables, p, v, v + 1, write, other, v);
      ReshapedKeys(lists1, ts1, lists, tables, p, v, v + 1, write, other);
      ReshapedMark(lists1, ts1, lists, tables, p, v, write, other);
    }

    /**
     * Fork shares a page that is not writable without marking it: when the parent is then given the
     * write right, its next store lands in the child as well.
     */
    method GrantAfterFork(p: nat, c: nat, v: nat, other: nat, offset: nat, b: Bytes.byte) returns (r: Outcome)
      requires Valid() && p in Seen() && c !in Seen() && v in Seen()[p] && !Seen()[p][v].write && 0 < v && v + 1 < limit
      modifies this
      ensures Sound() && r.Done? && c in Seen() && v in Seen()[c]
      ensures Seen()[c][v].content == StoreByte(old(Seen())[p][v].content, offset, b)
      ensures StoreByte(old(Seen())[p][v].content, offset, b) != old(Seen())[p][v].content ==>
                Seen() != Apply(AfterBoth(old(Seen()), p, c, v, true, other), StoreOp(p, v, offset, b), Result(r, 0))
    {
      hide Sane, Strict, Spaces, Shown, Find, FullPages, Written, Regranted, Reprotected, Stored;
      ghost var s0: map<nat, Space> := Seen();
      ForkThenProtect(p, c, v, true, other);
      ghost var s: map<nat, Space>, ts := Seen(), tables;
      BothPage(s0, p, c, v, true, other);
      PageIs(limit, frames, refs, lists, tables, kib, p, v);
      r := Store(p, v, offset, b);
      LandsThere(s, ts, p, c, v, StoreByte(s[p][v].content, offset, b));
      StoredElsewhere(s, p, c, v, offset, b);
    }

    /**
     * Fork marks a page that is writable: when the right is then taken from the parent the mark stays,
     * and a store is not refused but gives the right back.
     */
    method RevokeAfterFork(p: nat, c: nat, v: nat, other: nat, offset: nat, b: Bytes.byte) returns (r: Outcome)
      requires Valid() && p in Seen() && c !in Seen() && v in Seen()[p] && Seen()[p][v].write && 0 < v && v + 1 < limit
      modifies this
      ensures Sound() && !Writable(AfterBoth(old(Seen()), p, c, v, false, other), p, v) && !r.Fault?
      ensures !Agrees(AfterBoth(old(Seen()), p, c, v, false, other), StoreOp(p, v, offset, b), Result(r, 0), limit)
      ensures r.Done? ==> p in Seen() && v in Seen()[p]
                          && Seen()[p][v] == View(StoreByte(old(Seen())[p][v].content, offset, b), true, other)
    {
      hide Sane, Strict, Spaces, Shown, Find, FullPages, Written, Regranted, Reprotected, Stored;
      ghost var s0: map<nat, Space> := Seen();
      ForkThenProtect(p, c, v, false, other);
      ghost var s: map<nat, Space>, ts := Seen(), tables;
      BothPage(s0, p, c, v, false, other);
      PageIs(limit, frames, refs, lists, tables, kib, p, v);
      r := Store(p, v, offset, b);
      LandsHere(s, ts, p, v, StoreByte(s[p][v].content, offset, b));
    }

    lemma MappedSeen(p: nat, lo: nat, hi: nat)
      requires Sound() && p in tables && p in lists
      ensures p in Seen()
      ensures (forall v: nat :: lo <= v < hi ==> Mapped(lists[p], v)) <==> (forall v: nat :: lo <= v < hi ==> v in Seen()[p])
    {
      hide Sane, Find, Process, Spaces, Mapped;
      SaneProcess(limit, frames, refs, lists, tables, kib, p);
      ProcessLinked(limit, lists[p], tables[p], kib[p]);
      SeenProcess(p);
      forall v: nat
        ensures Mapped(lists[p], v) <==> v in Seen()[p]
      {
        MappedIn(lists[p], tables[p], v);
      }
    }

    lemma RegionSeen(p: nat, k: nat, v: nat)
      requires Sound() && p in tables && p in lists && k < |lists[p]| && Covers(lists[p][k], v)
      ensures p in Seen() && v in Seen()[p]
    {
      hide Sane, Find, Process;
      SaneProcess(limit, frames, refs, lists, tables, kib, p);
      SharePages(limit, lists[p], tables[p], kib[p], k);
      SeenProcess(p);
    }

    lemma AllCleared(p: nat, lo: nat, hi: nat)
      requires Sound() && p in tables && p in lists && ClearedTo(lists[p], |lists[p]|, lo, hi)
      ensures p in Seen() && forall v: nat :: lo <= v < hi ==> v !in Seen()[p]
    {
      hide Sane, Find;
      SaneProcess(limit, frames, refs, lists, tables, kib, p);
      SeenProcess(p);
      assert lists[p][..|lists[p]|] == lists[p];
      forall v: nat | lo <= v < hi
        ensures v !in Seen()[p]
      {
        Unmapped(lists[p], tables[p], v);
      }
    }

    lemma SeenProcess(p: nat)
      requires Sound() && p in tables
      ensures p in Seen() && p in lists && Seen().Keys == tables.Keys && Seen()[p].Keys == tables[p].Keys
    {
    }

    /** A run of pages is free exactly when the process sees none of them. */
    lemma FreeUnseen(p: nat, addr: nat, pages: nat)
      requires Sound() && p in tables
      ensures p in lists && p in Seen()
      ensures Free(lists[p], addr, pages) <==> forall v: nat :: addr <= v < addr + pages ==> v !in Seen()[p]
    {
      hide Find, Free, Spaces, Shown, Sane, Strict, FullPages;
      SeenProcess(p);
      SaneProcess(limit, frames, refs, lists, tables, kib, p);
      FreeMeans(lists[p], addr, pages, limit);
      if Free(lists[p], addr, pages) {
        forall v: nat | addr <= v < addr + pages
          ensures v !in Seen()[p]
        {
          Unmapped(lists[p], tables[p], v);
        }
      }
      if forall v: nat :: addr <= v < addr + pages ==> v !in Seen()[p] {
        forall v: nat | addr <= v < addr + pages
          ensures Find(lists[p], v) == None
        {
          Unmapped(lists[p], tables[p], v);
          assert v !in Seen()[p];
        }
      }
    }
  }

  /** One run of the kernel's calls: a page of zeros nobody may write, a fork, the write right for the parent, a store of one. */
  method LeakingRun() returns (k: Kernel)
    ensures fresh(k) && k.Sound() && 2 in k.Seen() && 5 in k.Seen()[2]
    ensures k.Seen()[2][5].content == Bytes.Zeros(PAGE_SIZE)[0 := 1] != Bytes.Zeros(PAGE_SIZE)
  {
    hide Sane, Strict, Spaces, Shown, Find, FullPages, Extended, Placed, NoRun, ZeroPages;
    FullZeros(2);
    k := new Kernel(100, ZeroPages(2));
    k.SeenKeys();
    SaneKeys(k.limit, k.frames, k.refs, k.lists, k.tables, k.kib);
    EmptyPlace(k.refs);
    k.Spawn(1);
    k.SeenKeys();
    var ok, addr := k.Mmap(1, 5, true, 1, false, 0, 50, 8);
    assert addr == 5 by { OnlyPlace(addr); }
    ZeroView(5);
    var r := k.GrantAfterFork(1, 2, 5, 0, 0, 1);
    assert Bytes.Zeros(PAGE_SIZE)[0 := 1][0] == 1;
  }

  lemma EmptyPlace(refs: seq<nat>)
    requires NoRefs(refs) && |refs| == 2
    ensures !NoRun(refs, 1) && !Placed([], 5, true, 1, 50, 8, 100, 0)
  {
    assert RunFree(refs, 0, 1);
  }

  lemma OnlyPlace(addr: nat)
    requires Placed([], 5, true, 1, 50, 8, 100, addr)
    ensures addr == 5
  {
  }

  lemma ZeroView(v: nat)
    ensures var s := Extended(map[], v, ZeroPages(1), false, 0);
            v in s && s[v] == View(Bytes.Zeros(PAGE_SIZE), false, 0)
  {
  }

  ghost predicate RunFree(refs: seq<nat>, f: nat, n: nat) {
    f + n <= |refs| && forall g :: f <= g < f + n ==> refs[g] == 0
  }

  ghost predicate NoRun(refs: seq<nat>, n: nat) {
    forall h: nat :: !RunFree(refs, h, n)
  }

  /** So many frames in a row are unused. */
  ghost predicate Frames(refs: seq<nat>, n: nat) {
    exists f: nat :: RunFree(refs, f, n)
  }

  /** There is no such run exactly when a used frame is in the way at every place. */
  lemma FramesAre(refs: seq<nat>, n: nat)
    ensures Frames(refs, n) <==> !NoRun(refs, n)
    ensures forall f: nat :: RunFree(refs, f, n) <==> f + n <= |refs| && forall g :: f <= g < f + n ==> refs[g] == 0
  {
  }

  ghost predicate RunAfter(refs: seq<nat>, start: nat, n: nat) {
    exists h: nat :: start <= h && RunFree(refs, h, n)
  }

  /** `f` is where a search from `start` that goes on at the beginning finds its run. */
  ghost predicate NextRun(refs: seq<nat>, start: nat, f: nat, n: nat) {
    && (forall h: nat :: start <= h && (h < f || f < start) ==> !RunFree(refs, h, n))
    && (f < start ==> forall h: nat :: h < f ==> !RunFree(refs, h, n))
  }

  /** Only the counts from `f` on, `n` of them, differ. */
  ghost predicate SameBut(before: seq<nat>, after: seq<nat>, f: nat, n: nat) {
    |after| == |before| && forall g :: 0 <= g < |before| && !(f <= g < f + n) ==> after[g] == before[g]
  }

  /** Taking `n` frames of a free run of `t` from `start` on leaves a free run of what is still needed after them. */
  lemma RunLeft(before: seq<nat>, after: seq<nat>, start: nat, f: nat, n: nat, t: nat)
    requires RunAfter(before, start, t) && n <= t && SameBut(before, after, f, n)
    requires RunFree(before, f, n) && NextRun(before, start, f, n)
    ensures RunAfter(after, if f + n < |before| then f + n else 0, t - n)
  {
    var h: nat :| start <= h && RunFree(before, h, t);
    assert RunFree(before, h, n);
    var rest: nat := if h < f + n then (if f + n < |after| then f + n else 0) else h;
    assert RunFree(after, rest, t - n);
  }

  lemma NoRunIs(refs: seq<nat>, n: nat)
    requires forall h: nat :: !RunFree(refs, h, n)
    ensures NoRun(refs, n)
  {
  }

  lemma NoFrame(refs: seq<nat>)
    requires forall g :: 0 <= g < |refs| ==> refs[g] != 0
    ensures NoRun(refs, 1)
  {
    forall h: nat
      ensures !RunFree(refs, h, 1)
    {
      if h < |refs| { assert refs[h] != 0; }
    }
  }

  lemma RunPart(refs: seq<nat>, start: nat, n: nat, t: nat)
    requires RunAfter(refs, start, t) && n <= t
    ensures !NoRun(refs, n)
  {
    var h: nat :| start <= h && RunFree(refs, h, t);
    assert RunFree(refs, h, n);
  }

  /** The size never drops below zero. */
  function SubtractOrZero(n: nat, d: nat): nat {
    if n > d then n - d else 0
  }

  /** Only pages in the range are gone, and what is left is unchanged. */
  ghost predicate Thinned(s0: Space, s: Space, lo: nat, hi: nat) {
    && (forall v :: v in s ==> v in s0 && s[v] == s0[v])
    && forall v :: v in s0 && !(lo <= v < hi) ==> v in s
  }

  /** The first `k` regions have no page in the range. */
  ghost predicate ClearedTo(rs: seq<Region>, k: nat, lo: nat, hi: nat) {
    k <= |rs| && forall v: nat :: lo <= v < hi ==> Find(rs[..k], v) == None
  }

  lemma StartCleared(rs: seq<Region>, lo: nat, hi: nat)
    ensures ClearedTo(rs, 0, lo, hi)
  {
    assert rs[..0] == [];
  }

  lemma SkipCleared(rs: seq<Region>, k: nat, lo: nat, hi: nat)
    requires ClearedTo(rs, k, lo, hi) && k < |rs|
    requires (if lo > rs[k].base then lo else rs[k].base) >= (if hi < End(rs[k]) then hi else End(rs[k]))
    ensures ClearedTo(rs, k + 1, lo, hi)
  {
    hide Find;
    var n := rs[..k + 1];
    assert n == rs[..k] + [rs[k]];
    forall v: nat | lo <= v < hi
      ensures Find(n, v) == None
    {
      FindJoin(rs[..k], [rs[k]], v);
      FindOne(rs[k], v);
    }
  }

  lemma CutCleared(rs: seq<Region>, k: nat, lo: nat, hi: nat, left: nat, right: nat)
    requires ClearedTo(rs, k, lo, hi) && k < |rs| && rs[k].base <= left <= right <= End(rs[k])
    requires (left == lo || (left == rs[k].base && lo <= left)) && (right == hi || (right == End(rs[k]) && right <= hi))
    ensures ClearedTo(CutList(rs, k, left, right), k + |Parts(rs[k], left, right, [])|, lo, hi)
    ensures |CutList(rs, k, left, right)| == |rs| - 1 + |Parts(rs[k], left, right, [])|
  {
    hide Find;
    var parts := Parts(rs[k], left, right, []);
    var n := CutList(rs, k, left, right)[..k + |parts|];
    assert n == rs[..k] + parts;
    forall v: nat | lo <= v < hi
      ensures Find(n, v) == None
    {
      FindJoin(rs[..k], parts, v);
      PartsFind(rs[k], left, right, [], v);
      FindEmpty();
    }
  }

  lemma ThinStart(s: map<nat, Space>, p: nat, lo: nat, hi: nat)
    requires p in s
    ensures s == Put(s, p, s[p]) && Thinned(s[p], s[p], lo, hi)
  {
  }

  lemma ThinMore(s0: map<nat, Space>, s: map<nat, Space>, p: nat, lo: nat, hi: nat, left: nat, right: nat)
    requires p in s0 && p in s && s == Put(s0, p, s[p]) && Thinned(s0[p], s[p], lo, hi) && lo <= left <= right <= hi
    ensures var n := Put(s, p, Without(s[p], left, right));
            n == Put(s0, p, n[p]) && Thinned(s0[p], n[p], lo, hi)
  {
  }

  lemma ThinDone(s0: Space, s: Space, lo: nat, hi: nat)
    requires Thinned(s0, s, lo, hi) && forall v: nat :: lo <= v < hi ==> v !in s
    ensures s == Without(s0, lo, hi)
  {
  }

  lemma CutWhole(rs: seq<Region>)
    requires rs != []
    ensures CutList(rs, 0, rs[0].base, End(rs[0])) == rs[1..]
  {
  }

  lemma LastGone(limit: nat, frames: seq<Page>, refs: seq<nat>, lists: RegionLists, ts: Tables, kib: map<nat, nat>, p: nat)
    requires Sane(limit, frames, refs, lists, ts, kib) && p in ts && lists[p] == []
    ensures Sane(limit, frames, refs, lists - {p}, ts - {p}, kib - {p}) && (Strict(lists, ts) ==> Strict(lists - {p}, ts - {p}))
    ensures Shown(frames, lists, ts) && Shown(frames, lists - {p}, ts - {p})
    ensures Spaces(frames, lists - {p}, ts - {p}) == Spaces(frames, lists, ts) - {p}
  {
    hide Counts, See, Tiled, Total;
    NoRegionsNoPages(ts[p]);
    EmptyProcess(refs, ts, p);
    SaneShown(limit, frames, refs, lists, ts, kib);
    if Strict(lists, ts) { GoneIsolated(ts, p); }
    hide Linked, Find;
  }

  lemma NoRegionsNoPages(t: Table)
    requires Linked([], t)
    ensures t == map[]
  {
    forall v: nat
      ensures v !in t
    {
      assert Find([], v) == None;
    }
  }

  lemma GoneIsolated(ts: Tables, p: nat)
    requires Isolated(ts)
    ensures Isolated(ts - {p})
  {
    var n: Tables := ts - {p};
    forall q, v | q in n && v in n[q] && n[q][v].write
      ensures Exclusive(n, q, v)
    {
      assert Exclusive(ts, q, v);
    }
  }

  lemma GoneAfter(s0: map<nat, Space>, s: map<nat, Space>, p: nat)
    requires p in s0 && p in s && s == Put(s0, p, s[p])
    ensures s - {p} == s0 - {p}
  {
  }

  ghost predicate NoneShared(rs: seq<Region>) {
    forall i :: 0 <= i < |rs| ==> !rs[i].flags.cow
  }

  /** The part of an address space that the given regions cover. */
  ghost function PrefixSpace(s: Space, rs: seq<Region>): Space {
    map v | v in s && Find(rs, v).Some? :: s[v]
  }

  lemma NewSeen(frames: seq<Page>, lists: RegionLists, ts: Tables, c: nat)
    requires StillSeen(frames, lists, ts, lists[c := []], ts[c := map[]], {c}) && c !in ts
    ensures Spaces(frames, lists[c := []], ts[c := map[]]) == Put(Spaces(frames, lists, ts), c, map[])
  {
    hide Linked;
    assert See(frames, [], map[]) == map[];
    hide See;
    SpacesPut(frames, lists, ts, frames, lists[c := []], ts[c := map[]], c, map[]);
  }

  lemma NotBefore(limit: nat, rs: seq<Region>, k: nat, v: nat)
    requires Tiled(rs, limit) && k < |rs| && Covers(rs[k], v)
    ensures Find(rs[..k], v) == None
  {
    FindNone(rs[..k], v);
  }

  lemma PageOther(limit: nat, frames: seq<Page>, refs: seq<nat>, lists: RegionLists, ts: Tables, kib: map<nat, nat>, p: nat, v: nat)
    requires Sane(limit, frames, refs, lists, ts, kib) && p in ts && v in ts[p]
    ensures Shown(frames, lists, ts) && p in Spaces(frames, lists, ts) && v in Spaces(frames, lists, ts)[p]
    ensures Spaces(frames, lists, ts)[p][v].other == ts[p][v].other
  {
    hide Find, Process;
    SaneShown(limit, frames, refs, lists, ts, kib);
  }

  lemma PrefixMore(s: Space, rs: seq<Region>, k: nat, contents: seq<Page>)
    requires k < |rs| && |contents| == rs[k].pages
    requires forall v: nat :: Covers(rs[k], v) ==>
               v in s && s[v] == FreshView(rs[k].base, contents, rs[k].flags.write, rs[k].flags.other, v) && Find(rs[..k], v) == None
    ensures Extended(PrefixSpace(s, rs[..k]), rs[k].base, contents, rs[k].flags.write, rs[k].flags.other) == PrefixSpace(s, rs[..k + 1])
  {
    hide Find, FreshView, FreshViews;
    var n := rs[..k + 1];
    assert n == rs[..k] + [rs[k]];
    forall v: nat
      ensures Find(n, v).Some? <==> Find(rs[..k], v).Some? || Covers(rs[k], v)
    {
      FindJoin(rs[..k], [rs[k]], v);
      FindOne(rs[k], v);
    }
  }

  lemma PrefixStart(s: Space, rs: seq<Region>)
    ensures PrefixSpace(s, rs[..0]) == map[]
  {
    assert rs[..0] == [];
  }

  lemma Discarded(s0: map<nat, Space>, c: nat, s: map<nat, Space>)
    requires c !in s0 && exists x :: s == Put(s0, c, x) - {c}
    ensures s == s0
  {
  }

  /**
   * A change of rights that copy-on-write can follow: the write right goes only to pages that
   * are marked or alone on their frame, and is taken only from pages that are not marked.
   */
  ghost predicate Tame(lists: RegionLists, ts: Tables, p: nat, lo: nat, hi: nat, write: bool)
    requires p in ts && p in lists
  {
    if write then SafeToWrite(lists[p], ts, p, lo, hi) else NoneMarked(lists[p], lo, hi)
  }

  lemma TameEmpty(lists: RegionLists, ts: Tables, p: nat, lo: nat, write: bool)
    requires p in ts && p in lists
    ensures Tame(lists, ts, p, lo, lo, write)
  {
  }

  lemma TameNext(lists: RegionLists, ts: Tables, p: nat, lo: nat, v: nat, write: bool)
    requires p in ts && p in lists && lo <= v
    ensures Tame(lists, ts, p, lo, v + 1, write) <==>
            Tame(lists, ts, p, lo, v, write) &&
            (Find(lists[p], v).Some? ==>
               if write then v in ts[p] && !Find(lists[p], v).value.flags.cow ==> Exclusive(ts, p, v)
               else !Find(lists[p], v).value.flags.cow)
  {
    hide Find, Exclusive;
  }

  /** The state of the kernel between two calls. */
  datatype Snapshot = Snapshot(frames: seq<Page>, refs: seq<nat>, lists: RegionLists, tables: Tables, kib: map<nat, nat>)

  ghost predicate SoundAt(limit: nat, m: Snapshot) {
    Sane(limit, m.frames, m.refs, m.lists, m.tables, m.kib) && FullPages(m.frames)
  }

  ghost predicate ValidAt(limit: nat, m: Snapshot) {
    SoundAt(limit, m) && Strict(m.lists, m.tables)
  }

  ghost function SeenAt(limit: nat, m: Snapshot): map<nat, Space>
    requires SoundAt(limit, m)
  {
    SaneShown(limit, m.frames, m.refs, m.lists, m.tables, m.kib);
    Spaces(m.frames, m.lists, m.tables)
  }

  /** Whatever store comes next, it is answered and seen as if nothing were shared. */
  ghost predicate FaithfulAt(limit: nat, m: Snapshot) {
    SoundAt(limit, m) && Shown(m.frames, m.lists, m.tables) && Faithful(m.frames, m.refs, m.lists, m.tables)
  }

  /** The call succeeds in changing rights that copy-on-write cannot follow. */
  ghost predicate Breaks(m: Snapshot, op: Op, r: Result) {
    Wild(m.lists, m.tables, op) && r.outcome.Done?
  }

  /** What everybody sees after a call. */
  ghost function Performed(s: map<nat, Space>, ts: Tables, op: Op, r: Result): map<nat, Space> {
    if op.StoreOp? then AfterStore(s, ts, op.p, op.v, op.offset, op.b, r.outcome) else Apply(s, op, r)
  }

  /**
   * One call takes the kernel from `m` to `n` with answer `r`.  Only stores depend on what is shared;
   * in a state that keeps the rules of copy-on-write they do not either, and exactly the changes of
   * rights that are not tame lead out of these states.
   */
  ghost predicate Did(limit: nat, m: Snapshot, op: Op, r: Result, n: Snapshot) {
    && SoundAt(limit, m) && SoundAt(limit, n) && SeenAt(limit, n) == Performed(SeenAt(limit, m), m.tables, op, r)
    && (op.StoreOp? ==> r.outcome == StoreOutcome(m.lists, m.refs, m.tables, op.p, op.v))
    && (!op.StoreOp? || ValidAt(limit, m) ==> SeenAt(limit, n) == Apply(SeenAt(limit, m), op, r) && Agrees(SeenAt(limit, m), op, r, limit))
    && (r.outcome.NoMemory? ==> Short(m.lists, m.refs, op, limit))
    && (ValidAt(limit, m) ==> (ValidAt(limit, n) <==> !Breaks(m, op, r)))
  }

  /** The states `trace` is taken through by `ops`. */
  ghost predicate Traced(limit: nat, ops: seq<Op>, results: seq<Result>, trace: seq<Snapshot>) {
    && |results| == |ops| && |trace| == |ops| + 1 && SoundAt(limit, trace[0])
    && forall k :: 0 <= k < |ops| ==> Did(limit, trace[k], ops[k], results[k], trace[k + 1])
  }

  /** None of the first `n` calls breaks the rules of copy-on-write. */
  ghost predicate Tamed(ops: seq<Op>, results: seq<Result>, trace: seq<Snapshot>, n: nat)
    requires |results| == |ops| && |trace| == |ops| + 1 && n <= |ops|
  {
    forall k :: 0 <= k < n ==> !Breaks(trace[k], ops[k], results[k])
  }

  /** After `n` calls everybody sees, and has been answered, what they would if fork copied every page. */
  ghost predicate Copying(limit: nat, ops: seq<Op>, results: seq<Result>, trace: seq<Snapshot>, n: nat)
    requires Traced(limit, ops, results, trace) && n <= |ops|
  {
    && ValidAt(limit, trace[n]) && SeenAt(limit, trace[n]) == ApplyAll(SeenAt(limit, trace[0]), ops[..n], results[..n])
    && forall k :: 0 <= k < n ==> Agrees(ApplyAll(SeenAt(limit, trace[0]), ops[..k], results[..k]), ops[k], results[k], limit)
  }

  lemma TraceMore(limit: nat, ops: seq<Op>, n: nat, results: seq<Result>, trace: seq<Snapshot>, r: Result, m: Snapshot)
    requires n < |ops| && Traced(limit, ops[..n], results, trace) && Did(limit, trace[n], ops[n], r, m)
    ensures Traced(limit, ops[..n + 1], results + [r], trace + [m])
  {
    hide Did, SoundAt;
  }

  lemma {:induction false} RunCopies(limit: nat, ops: seq<Op>, results: seq<Result>, trace: seq<Snapshot>, n: nat)
    requires Traced(limit, ops, results, trace) && ValidAt(limit, trace[0]) && n <= |ops| && Tamed(ops, results, trace, n)
    ensures Copying(limit, ops, results, trace, n)
  {
    hide SoundAt, Strict, SeenAt, Apply, Agrees, Breaks, StoreOutcome, Short, Performed;
    if n > 0 {
      RunCopies(limit, ops, results, trace, n - 1);
      assert Did(limit, trace[n - 1], ops[n - 1], results[n - 1], trace[n]);
      assert ops[..n][..n - 1] == ops[..n - 1] && results[..n][..n - 1] == results[..n - 1];
    }
  }

  /** Every point of a run is faithful exactly when no call breaks the rules. */
  lemma RunFaithful(limit: nat, ops: seq<Op>, results: seq<Result>, trace: seq<Snapshot>)
    requires Traced(limit, ops, results, trace) && ValidAt(limit, trace[0])
    ensures (forall n :: 0 <= n <= |ops| ==> FaithfulAt(limit, trace[n])) <==> Tamed(ops, results, trace, |ops|)
  {
    hide SoundAt, Strict, SeenAt, FaithfulAt, Did, Breaks, ValidAt;
    forall n | 0 <= n <= |ops|
      ensures FaithfulAt(limit, trace[n]) <==> ValidAt(limit, trace[n])
    {
      PointFaithful(limit, ops, results, trace, n);
    }
    if Tamed(ops, results, trace, |ops|) {
      forall n | 0 <= n <= |ops|
        ensures ValidAt(limit, trace[n])
      {
        RunCopies(limit, ops, results, trace, n);
      }
    } else {
      var k :| 0 <= k < |ops| && Breaks(trace[k], ops[k], results[k]);
      BreaksThere(limit, trace[k], ops[k], results[k], trace[k + 1]);
    }
  }

  lemma BreaksThere(limit: nat, m: Snapshot, op: Op, r: Result, n: Snapshot)
    requires Did(limit, m, op, r, n) && Breaks(m, op, r)
    ensures !(ValidAt(limit, m) && ValidAt(limit, n))
  {
    hide SoundAt, Strict, SeenAt, Breaks, Performed, Agrees, Apply, StoreOutcome, Short;
  }

  lemma PointFaithful(limit: nat, ops: seq<Op>, results: seq<Result>, trace: seq<Snapshot>, n: nat)
    requires Traced(limit, ops, results, trace) && n <= |ops|
    ensures FaithfulAt(limit, trace[n]) <==> ValidAt(limit, trace[n])
  {
    hide Sane, Strict, FullPages, Faithful, SeenAt, Performed, Agrees, Apply, StoreOutcome, Short, Breaks;
    var m := trace[n];
    assert SoundAt(limit, m) by {
      if n > 0 { assert Did(limit, trace[n - 1], ops[n - 1], results[n - 1], trace[n]); }
    }
    FaithfulStates(limit, m.frames, m.refs, m.lists, m.tables, m.kib);
  }

  lemma CopyingEnd(limit: nat, ops: seq<Op>, results: seq<Result>, trace: seq<Snapshot>)
    requires Traced(limit, ops, results, trace) && Copying(limit, ops, results, trace, |ops|)
    ensures ValidAt(limit, trace[|ops|]) && SeenAt(limit, trace[|ops|]) == ApplyAll(SeenAt(limit, trace[0]), ops, results)
  {
    hide SoundAt, Strict, SeenAt, Did, ApplyAll, Agrees;
    assert ops[..|ops|] == ops && results[..|ops|] == results;
  }

  const ALL_WELL := Result(Done, 0)

  /** Everybody's memory after a fork and new rights for one page of the parent, when fork copies. */
  ghost function AfterBoth(s: map<nat, Space>, p: nat, c: nat, v: nat, write: bool, other: nat): map<nat, Space> {
    Apply(Apply(s, ForkOp(p, c), ALL_WELL), ProtectOp(p, v, 1, write, other), ALL_WELL)
  }

  lemma BothPage(s: map<nat, Space>, p: nat, c: nat, v: nat, write: bool, other: nat)
    requires p in s && c !in s && v in s[p]
    ensures var s' := AfterBoth(s, p, c, v, write, other);
            && p in s' && v in s'[p] && s'[p][v] == View(s[p][v].content, write, other)
            && c in s' && v in s'[c] && s'[c][v] == s[p][v]
  {
  }

  lemma ReshapedMark(lists: RegionLists, ts: Tables, lists': RegionLists, ts': Tables, p: nat, v: nat, write: bool, other: nat)
    requires Reshaped(lists, ts, lists', ts', p, v, v + 1, write, other)
    ensures Shared(lists', p, v) <==> Shared(lists, p, v)
  {
    hide Find, Linked;
  }

  /** Pages that the regions describe alike have the same entry. */
  lemma SameEntry(limit: nat, frames: seq<Page>, refs: seq<nat>, lists: RegionLists, ts: Tables, kib: map<nat, nat>, p: nat, c: nat, v: nat)
    requires Sane(limit, frames, refs, lists, ts, kib) && p in ts && c in ts && v in ts[p] && p in lists && c in lists
    requires Find(lists[c], v) == Find(lists[p], v)
    ensures v in ts[c] && ts[c][v] == ts[p][v]
  {
    hide Find, Counts, Tiled, Total;
  }

  lemma LandsThere(s: map<nat, Space>, ts: Tables, p: nat, c: nat, v: nat, x: Page)
    requires p in ts && v in ts[p] && c in ts && v in ts[c] && ts[p][v].write && ts[c][v].frame == ts[p][v].frame
    requires p in s && v in s[p] && c in s && v in s[c]
    ensures var s' := Written(Regranted(s, p, v, true), ts, p, v, x);
            c in s' && v in s'[c] && s'[c][v].content == x
  {
  }

  lemma LandsHere(s: map<nat, Space>, ts: Tables, p: nat, v: nat, x: Page)
    requires p in ts && v in ts[p] && p in s && v in s[p]
    ensures var s' := Written(Regranted(s, p, v, true), ts, p, v, x);
            p in s' && v in s'[p] && s'[p][v] == s[p][v].(content := x, write := true)
  {
  }

  lemma StoredElsewhere(s: map<nat, Space>, p: nat, c: nat, v: nat, offset: nat, b: Bytes.byte)
    requires p in s && c in s && v in s[p] && v in s[c] && p != c
    ensures var s' := Stored(s, p, v, offset, b);
            c in s' && v in s'[c] && s'[c][v] == s[c][v]
  {
  }

  lemma MapShort(lists: RegionLists, refs: seq<nat>, op: Op, limit: nat)
    requires op.MmapOp? && op.p in lists
    requires op.pages == 0 || Placed(lists[op.p], op.hint, op.fixed, op.pages, op.stackBase, op.stackPages, limit, 0) || NoRun(refs, op.pages)
    ensures Short(lists, refs, op, limit)
  {
    hide Placed, NoRun;
  }

  lemma StoreShort(lists: RegionLists, refs: seq<nat>, ts: Tables, op: Op, limit: nat)
    requires op.StoreOp?
    ensures StoreOutcome(lists, refs, ts, op.p, op.v).NoMemory? ==> Short(lists, refs, op, limit)
  {
    if NoFree(refs) { NoFrame(refs); }
  }

  /** A protection change that is not tame. */
  ghost predicate Wild(lists: RegionLists, ts: Tables, op: Op) {
    op.ProtectOp? && op.p in ts && op.p in lists && !Tame(lists, ts, op.p, op.lo, op.lo + op.pages, op.write)
  }

  lemma NoUsers(refs: seq<nat>)
    requires forall f :: 0 <= f < |refs| ==> refs[f] == 0
    ensures Counts(refs, map[])
  {
    forall f: nat | f < |refs|
      ensures |Users(map[], f)| == 0
    {
      assert Users(map[], f) == {};
    }
  }

  lemma NodesLeft(rs: seq<Region>, k: nat, lo: nat, hi: nat)
    requires k < |rs|
    ensures SplitCount(rs[k..], lo, hi) == NodesFor(rs[k], lo, hi) + SplitCount(rs[k + 1..], lo, hi)
  {
    assert rs[k..][1..] == rs[k + 1..];
  }

  lemma PutTwice<T>(a: map<nat, T>, b: map<nat, T>, c: map<nat, T>, p: nat)
    requires p in b && p in c && b == Put(a, p, b[p]) && c == Put(b, p, c[p])
    ensures c == Put(a, p, c[p])
  {
  }

  lemma PutSelf<T>(m: map<nat, T>, p: nat)
    requires p in m
    ensures Put(m, p, m[p]) == m
  {
  }

  predicate Mapped(rs: seq<Region>, v: nat) {
    Find(rs, v).Some?
  }

  lemma MappedIn(rs: seq<Region>, t: Table, v: nat)
    requires Linked(rs, t)
    ensures Mapped(rs, v) <==> v in t
  {
    Unmapped(rs, t, v);
  }

  lemma NoNodes(r: Region, lo: nat, hi: nat)
    requires Left(r, lo) >= Right(r, hi)
    ensures NodesFor(r, lo, hi) == 0
  {
  }

  lemma SomeNodes(r: Region, lo: nat, hi: nat)
    requires Left(r, lo) < Right(r, hi)
    ensures r.base <= Left(r, lo) < Right(r, hi) <= End(r)
    ensures NodesFor(r, lo, hi) == (if Left(r, lo) > r.base then 1 else 0) + (if Right(r, hi) < End(r) then 1 else 0)
  {
  }

  lemma ListGrows(rs: seq<Region>, k: nat, lo: nat, hi: nat, write: bool, other: nat)
    requires k < |rs| && Left(rs[k], lo) < Right(rs[k], hi)
    ensures |ProtectList(rs, k, Left(rs[k], lo), Right(rs[k], hi), write, other)| == |rs| + NodesFor(rs[k], lo, hi)
  {
  }

  lemma NoNodesLeft(rs: seq<Region>, lo: nat, hi: nat)
    ensures SplitCount(rs[|rs|..], lo, hi) == 0
  {
  }

  lemma ReshapedNow(limit: nat, frames: seq<Page>, refs: seq<nat>, lists: RegionLists, ts: Tables,
                    lists': RegionLists, ts': Tables, kib: map<nat, nat>, p: nat, lo: nat, hi: nat, write: bool, other: nat)
    requires Sane(limit, frames, refs, lists, ts, kib) && Sane(limit, frames, refs, lists', ts', kib) && p in ts && p in ts'
    requires lists' == Put(lists, p, lists'[p]) && ts' == Put(ts, p, ts'[p])
    requires forall v: nat :: Find(lists'[p], v) == (if lo <= v < hi then Reflagged(Find(lists[p], v), write, other) else Find(lists[p], v))
    ensures Reshaped(lists, ts, lists', ts', p, lo, hi, write, other)
  {
    hide Find, Counts, Tiled, Total, Linked;
  }

  lemma ReshapedSeen(limit: nat, frames: seq<Page>, refs: seq<nat>, lists: RegionLists, ts: Tables,
                     lists': RegionLists, ts': Tables, kib: map<nat, nat>, p: nat, lo: nat, hi: nat, write: bool, other: nat)
    requires Sane(limit, frames, refs, lists, ts, kib) && Sane(limit, frames, refs, lists', ts', kib)
    requires Reshaped(lists, ts, lists', ts', p, lo, hi, write, other)
    ensures Shown(frames, lists, ts) && Shown(frames, lists', ts') && p in Spaces(frames, lists, ts)
    ensures Spaces(frames, lists', ts') == Put(Spaces(frames, lists, ts), p, Reprotected(Spaces(frames, lists, ts)[p], lo, hi, write, other))
  {
    hide Sane, Shown, Reshaped, Reprotected, Spaces;
    SaneShown(limit, frames, refs, lists, ts, kib);
    SaneShown(limit, frames, refs, lists', ts', kib);
    ReshapedShown(frames, lists, ts, lists', ts', p, lo, hi, write, other);
  }

  lemma ReshapedShown(frames: seq<Page>, lists: RegionLists, ts: Tables, lists': RegionLists, ts': Tables,
                      p: nat, lo: nat, hi: nat, write: bool, other: nat)
    requires Shown(frames, lists, ts) && Shown(frames, lists', ts') && Reshaped(lists, ts, lists', ts', p, lo, hi, write, other)
    ensures p in Spaces(frames, lists, ts)
    ensures Spaces(frames, lists', ts') == Put(Spaces(frames, lists, ts), p, Reprotected(Spaces(frames, lists, ts)[p], lo, hi, write, other))
  {
    hide Linked, Reprotected, See, Reshaped;
    ReshapedKeys(lists, ts, lists', ts', p, lo, hi, write, other);
    ReshapedSight(frames, lists, ts, lists', ts', p, lo, hi, write, other);
    SpacesPut(frames, lists, ts, frames, lists', ts', p, Reprotected(See(frames, lists[p], ts[p]), lo, hi, write, other));
  }

  lemma ReshapedSight(frames: seq<Page>, lists: RegionLists, ts: Tables, lists': RegionLists, ts': Tables,
                      p: nat, lo: nat, hi: nat, write: bool, other: nat)
    requires Reshaped(lists, ts, lists', ts', p, lo, hi, write, other)
    requires (forall v :: v in ts[p] ==> ts[p][v].frame < |frames|) && (forall v :: v in ts'[p] ==> ts'[p][v].frame < |frames|)
    ensures See(frames, lists'[p], ts'[p]) == Reprotected(See(frames, lists[p], ts[p]), lo, hi, write, other)
  {
    hide Find, Linked, Reprotected, See;
    ProtectSight(frames, lists[p], ts[p], lists'[p], ts'[p], lo, hi, write, other);
  }

  lemma FreshAre(refs: seq<nat>, r: Region, contents: seq<Page>)
    requires r.frame + r.pages <= |refs| && |contents| == r.pages && !r.flags.cow
    requires forall g :: r.frame <= g < r.frame + r.pages ==> refs[g] == 0
    ensures FreshRun(refs, r, contents)
  {
  }

  lemma NewPages(limit: nat, rs: seq<Region>, t: Table, kib: nat, r: Region)
    requires Process(limit, rs, t, kib) && r.pages > 0 && End(r) < limit && Free(rs, r.base, r.pages)
    ensures forall v :: v in t ==> !Covers(r, v)
  {
    hide Find, Process, Free;
    AddProcess(limit, rs, t, kib, r);
  }

  lemma NewProcess(limit: nat, frames: seq<Page>, refs: seq<nat>, lists: RegionLists, ts: Tables, kib: map<nat, nat>, c: nat)
    requires Sane(limit, frames, refs, lists, ts, kib) && c !in ts
    ensures var lists', ts' := lists[c := []], ts[c := map[]];
            && Sane(limit, frames, refs, lists', ts', kib[c := 0]) && StillSeen(frames, lists, ts, lists', ts', {c})
            && (Strict(lists, ts) ==> Strict(lists', ts'))
  {
    hide Counts, Process, See, Exclusive;
    EmptyProcess(refs, ts, c);
    EmptySpace(limit);
    OneProcess(limit, frames, refs, lists, ts, kib, c, frames, refs, [], map[], 0);
    SaneShown(limit, frames, refs, lists, ts, kib);
    SaneShown(limit, frames, refs, lists[c := []], ts[c := map[]], kib[c := 0]);
    if Strict(lists, ts) {
      NewIsolated(ts, c);
    }
  }

  lemma EmptySpace(limit: nat)
    ensures Process(limit, [], map[], 0)
  {
  }

  lemma NewIsolated(ts: Tables, c: nat)
    requires Isolated(ts) && c !in ts
    ensures Isolated(ts[c := map[]])
  {
    var n: Tables := ts[c := map[]];
    forall p, v | p in n && v in n[p] && n[p][v].write
      ensures Exclusive(n, p, v)
    {
      assert Exclusive(ts, p, v);
    }
  }

  /** The first `k` regions of parent `p` are marked and shared with child `c`. */
  ghost predicate HalfForked(frames: seq<Page>, lists0: RegionLists, ts0: Tables, lists: RegionLists, ts: Tables, p: nat, c: nat, k: nat) {
    && p in lists0 && p in lists && c in lists && p in ts && c in ts && p != c && lists[p] == MarkedTo(lists0[p], k) && k <= |lists[p]|
    && (forall v: nat :: Find(lists[c], v) == Find(lists[p][..k], v))
    && StillSeen(frames, lists0, ts0, lists, ts, {c}) && ts.Keys == ts0.Keys + {c}
  }

  lemma StartFork(frames: seq<Page>, lists: RegionLists, ts: Tables, p: nat, c: nat)
    requires p in lists && p in ts && p != c && StillSeen(frames, lists, ts, lists[c := []], ts[c := map[]], {c})
    ensures HalfForked(frames, lists, ts, lists[c := []], ts[c := map[]], p, c, 0)
  {
    hide StillSeen;
    NothingYet(lists[p]);
    MarkedNone(lists[p]);
  }

  lemma HalfForkedAll(frames: seq<Page>, lists0: RegionLists, ts0: Tables, lists: RegionLists, ts: Tables, p: nat, c: nat)
    requires p in lists0 && HalfForked(frames, lists0, ts0, lists, ts, p, c, |lists0[p]|)
    ensures StillSeen(frames, lists0, ts0, lists, ts, {c}) && ts.Keys == ts0.Keys + {c}
    ensures p in lists && c in lists && lists[p] == AllMarked(lists0[p]) && forall v: nat :: Find(lists[c], v) == Find(lists[p], v)
  {
    hide Find, StillSeen;
    assert lists[p][..|lists[p]|] == lists[p];
  }

  lemma NothingYet(rs: seq<Region>)
    ensures forall v: nat :: Find([], v) == Find(rs[..0], v)
  {
    assert rs[..0] == [];
  }

  lemma StillChain(frames: seq<Page>, lists: RegionLists, ts: Tables, lists1: RegionLists, ts1: Tables,
                   lists2: RegionLists, ts2: Tables, c: nat)
    requires StillSeen(frames, lists, ts, lists1, ts1, {c}) && StillSeen(frames, lists1, ts1, lists2, ts2, {c})
    ensures StillSeen(frames, lists, ts, lists2, ts2, {c})
  {
    hide See, Shown;
  }

  lemma ForkSeen(limit: nat, frames: seq<Page>, refs: seq<nat>, lists: RegionLists, ts: Tables,
                 lists': RegionLists, ts': Tables, kib: map<nat, nat>, p: nat, c: nat)
    requires Sane(limit, frames, refs, lists', ts', kib) && StillSeen(frames, lists, ts, lists', ts', {c})
    requires p in ts && c !in ts && ts'.Keys == ts.Keys + {c} && forall v: nat :: Find(lists'[c], v) == Find(lists'[p], v)
    ensures Shown(frames, lists, ts) && Shown(frames, lists', ts') && p in Spaces(frames, lists, ts)
    ensures Spaces(frames, lists', ts') == Forked(Spaces(frames, lists, ts), p, c)
  {
    hide Find, Counts, Tiled, Total, Linked;
    SameTables(lists'[p], ts'[p], lists'[c], ts'[c]);
    SameSight(frames, lists'[p], ts'[p], frames, lists'[c], ts'[c]);
    hide See;
    SpacesPut(frames, lists, ts, frames, lists', ts', c, See(frames, lists'[p], ts'[p]));
  }

  lemma RegionPages(limit: nat, frames: seq<Page>, refs: seq<nat>, lists: RegionLists, ts: Tables, kib: map<nat, nat>,
                    p: nat, c: nat, k: nat)
    requires Sane(limit, frames, refs, lists, ts, kib) && p in ts && c in ts && k < |lists[p]|
    requires forall v: nat :: Find(lists[c], v) == Find(lists[p][..k], v)
    ensures Counts(refs, ts) && lists[p][k].frame + lists[p][k].pages <= |refs|
    ensures forall v: nat :: Covers(lists[p][k], v) ==> v in ts[p] && ts[p][v] == PteOf(PageOf(lists[p][k], v))
    ensures forall v :: v in ts[c] ==> !Covers(lists[p][k], v)
  {
    hide Find, Users, Linked, Total;
    var r := lists[p][k];
    SharePages(limit, lists[p], ts[p], kib[p], k);
    assert Covers(r, End(r) - 1);
    assert ts[p][End(r) - 1].frame < |refs|;
    MarkedFree(lists[p], k, lists[c], limit);
    FreeMeans(lists[c], r.base, r.pages, limit);
    forall v: nat | v in ts[c]
      ensures !Covers(r, v)
    {
      Unmapped(lists[c], ts[c], v);
    }
  }

  lemma AlreadyMarked(t: Table, m: Region)
    requires forall v: nat :: Covers(m, v) ==> v in t && t[v] == PteOf(PageOf(m, v))
    ensures t + RunTable(m) == t
  {
  }

  lemma SharedEither(ts: Tables, p: nat, c: nat, m: Region)
    requires p in ts && c in ts && p != c
    ensures ts[c := ts[c] + RunTable(m)][p := ts[p] + RunTable(m)] == SharedTables(ts, p, c, m)
  {
  }

  lemma RemapFrames(t: Table, r: Region)
    requires forall v: nat :: Covers(r, v) ==> v in t && t[v].frame == PageOf(r, v).frame
    ensures (t + RunTable(r)).Keys == t.Keys && forall v :: v in t ==> (t + RunTable(r))[v].frame == t[v].frame
  {
  }

  lemma RunEntry(r: Region, i: nat, e: Pte)
    requires i < r.pages && e == Pte(r.frame + i, r.flags.write && !r.flags.cow, r.flags.other)
    ensures e == PteOf(PageOf(r, r.base + i))
  {
  }

  lemma MapOneMore(refs: seq<nat>, ts: Tables, c: nat, t: Table, v: nat, e: Pte)
    requires c in ts && v !in t && Counts(refs, ts[c := t]) && e.frame < |refs|
    ensures Counts(refs[e.frame := refs[e.frame] + 1], ts[c := Put(t, v, e)])
  {
    hide Counts, Put;
    MapOne(refs, ts[c := t], c, v, e);
    assert ts[c := t][c := Put(t, v, e)] == ts[c := Put(t, v, e)];
  }

  lemma PutSame(t: Table, v: nat)
    requires v in t
    ensures Put(t, v, t[v]) == t
  {
  }

  lemma RunFrames(t: Table, r: Region)
    requires forall v: nat :: Covers(r, v) ==> v in t && t[v].(write := false) == PteOf(PageOf(r, v))
    ensures (t + RunTable(r)).Keys == t.Keys && forall v :: v in t ==> (t + RunTable(r))[v].frame == t[v].frame
  {
  }

  lemma RunKeys(t: Table, r: Region, i: nat)
    ensures r.base + i !in RunTable(FirstPages(r, i))
    ensures (t + RunTable(FirstPages(r, i))).Keys == t.Keys + RunTable(FirstPages(r, i)).Keys
    ensures r.base + i in t ==> (t + RunTable(FirstPages(r, i)))[r.base + i] == t[r.base + i]
  {
  }

  lemma RegionPage(limit: nat, frames: seq<Page>, refs: seq<nat>, lists: RegionLists, ts: Tables, kib: map<nat, nat>,
                   p: nat, k: nat, v: nat)
    requires Sane(limit, frames, refs, lists, ts, kib) && p in ts && k < |lists[p]| && Covers(lists[p][k], v)
    ensures Find(lists[p], v) == Some(PageOf(lists[p][k], v)) && v in ts[p] && ts[p][v] == PteOf(PageOf(lists[p][k], v))
    ensures ts[p][v].frame < |refs| && refs[ts[p][v].frame] > 0
  {
    hide Users;
    FindSome(lists[p], k, v, limit);
    NoUser(refs, ts, p, v);
  }

  lemma StoreStep(limit: nat, frames: seq<Page>, refs: seq<nat>, lists: RegionLists, ts: Tables, kib: map<nat, nat>,
                  p: nat, v: nat, c: Page)
    requires Sane(limit, frames, refs, lists, ts, kib) && p in ts && v in ts[p] && ts[p][v].write && ts[p][v].frame < |frames|
    ensures var frames' := frames[ts[p][v].frame := c];
            && Sane(limit, frames', refs, lists, ts, kib) && Shown(frames', lists, ts) && Shown(frames, lists, ts)
            && Spaces(frames', lists, ts) == Written(Spaces(frames, lists, ts), ts, p, v, c)
  {
    hide Counts, Process, Linked, Spaces, Written;
    SaneShown(limit, frames, refs, lists, ts, kib);
    StoreSeen(frames, lists, ts, p, v, c);
  }

  lemma FullByte(frames: seq<Page>, f: nat, offset: nat, b: Bytes.byte)
    requires FullPages(frames) && f < |frames|
    ensures FullPages(frames[f := StoreByte(frames[f], offset, b)])
  {
    FullStored(frames, f, StoreByte(frames[f], offset, b));
  }

  lemma FullCopied(frames: seq<Page>, to: nat, from: nat)
    requires FullPages(frames) && to < |frames| && from < |frames|
    ensures FullPages(frames[to := frames[from]])
  {
    FullStored(frames, to, frames[from]);
  }

  lemma FullZeros(n: nat)
    ensures FullPages(ZeroPages(n))
  {
  }

  lemma SameContent(s: map<nat, Space>, p: nat, v: nat)
    requires p in s && v in s[p]
    ensures var s' := Regranted(s, p, v, true);
            p in s' && v in s'[p] && s'[p][v].content == s[p][v].content
  {
  }

  ghost predicate NoRefs(refs: seq<nat>) {
    forall f :: 0 <= f < |refs| ==> refs[f] == 0
  }

  // ----- which regions fork has marked

  /** The first `k` regions marked. */
  function MarkedTo(rs: seq<Region>, k: nat): (n: seq<Region>)
    ensures |n| == |rs|
  {
    seq(|rs|, i requires 0 <= i < |rs| => if i < k then Marked(rs[i]) else rs[i])
  }

  function AllMarked(rs: seq<Region>): seq<Region> {
    MarkedTo(rs, |rs|)
  }

  lemma MarkedNone(rs: seq<Region>)
    ensures MarkedTo(rs, 0) == rs
  {
  }

  lemma MarkedNext(rs: seq<Region>, k: nat)
    requires k < |rs|
    ensures MarkedTo(rs, k)[k] == rs[k] && MarkedTo(rs, k)[k := Marked(rs[k])] == MarkedTo(rs, k + 1)
  {
  }

  /** A page of a marked list: marked if it was writable, otherwise as it was. */
  lemma {:induction false} MarkedPage(rs: seq<Region>, v: nat)
    ensures Find(AllMarked(rs), v) ==
            match Find(rs, v) {
              case None => None
              case Some(i) => Some(i.(flags := i.flags.(cow := i.flags.cow || i.flags.write)))
            }
  {
    if rs != [] {
      MarkedPage(rs[1..], v);
      assert AllMarked(rs)[1..] == AllMarked(rs[1..]);
    }
  }
}
