/** Least-recently-used order of a small fixed set of cache slots, stated over the whole history of uses. */
module LruOrder {
  import opened Bytes
  import opened Sets

  datatype Slot = Slot(valid: bool, block: nat, stamp: nat, data: seq<byte>)

  /** The position, counted from one, of the last use of `b`; zero when it was never used. */
  ghost function Last(h: seq<nat>, b: nat): nat {
    if h == [] then 0 else if h[|h| - 1] == b then |h| else Last(h[..|h| - 1], b)
  }

  /** The different blocks used since `b` was last used. */
  ghost function Since(h: seq<nat>, b: nat): set<nat> {
    set x | x in h && Last(h, x) > Last(h, b)
  }

  ghost predicate Held(s: seq<Slot>, b: nat) {
    exists i :: 0 <= i < |s| && s[i].valid && s[i].block == b
  }

  ghost function Cached(s: seq<Slot>): set<nat> {
    set i | 0 <= i < |s| && s[i].valid :: s[i].block
  }

  ghost predicate Unique(s: seq<Slot>) {
    forall i, j :: 0 <= i < j < |s| && s[i].valid && s[j].valid ==> s[i].block != s[j].block
  }

  ghost predicate Stamped(s: seq<Slot>, h: seq<nat>) {
    forall i :: 0 <= i < |s| && s[i].valid ==> s[i].block in h && s[i].stamp == Last(h, s[i].block)
  }

  /** A used block is held exactly when fewer blocks than there are slots were used after it. */
  ghost predicate Recent(s: seq<Slot>, h: seq<nat>) {
    forall x :: x in h ==> (Held(s, x) <==> |Since(h, x)| < |s|)
  }

  ghost predicate Full(s: seq<Slot>) {
    forall i :: 0 <= i < |s| ==> s[i].valid
  }

  ghost predicate AllHeld(s: seq<Slot>, h: seq<nat>) {
    forall x :: x in h ==> Held(s, x)
  }

  ghost predicate Lru(s: seq<Slot>, h: seq<nat>) {
    Unique(s) && Stamped(s, h) && Recent(s, h) && (Full(s) || AllHeld(s, h))
  }

  lemma {:induction false} LastFacts(h: seq<nat>, b: nat)
    ensures Last(h, b) <= |h| && (Last(h, b) > 0 <==> b in h)
    ensures Last(h, b) > 0 ==> h[Last(h, b) - 1] == b
  {
    if h != [] && h[|h| - 1] != b {
      LastFacts(h[..|h| - 1], b);
      assert h == h[..|h| - 1] + [h[|h| - 1]];
    }
  }

  lemma LastAppend(h: seq<nat>, b: nat, x: nat)
    ensures Last(h + [b], x) == if x == b then |h| + 1 else Last(h, x)
  {
    assert (h + [b])[..|h|] == h;
  }

  lemma SinceAppend(h: seq<nat>, b: nat, x: nat)
    requires x in h && x != b
    ensures Since(h + [b], x) == Since(h, x) + {b}
  {
    LastFacts(h, x);
    forall y
      ensures y in Since(h + [b], x) <==> y in Since(h, x) + {b}
    {
      LastAppend(h, b, y);
      LastAppend(h, b, x);
    }
  }

  lemma SinceSelf(h: seq<nat>, b: nat)
    ensures Since(h + [b], b) == {}
  {
    forall y | y in h + [b]
      ensures y !in Since(h + [b], b)
    {
      LastAppend(h, b, b);
      LastFacts(h + [b], y);
    }
  }

  /** Of two used blocks, the one used later has fewer blocks used since. */
  lemma SinceNested(h: seq<nat>, x: nat, y: nat)
    requires x in h && y in h && Last(h, x) < Last(h, y)
    ensures Since(h, y) <= Since(h, x) && y in Since(h, x) && |Since(h, y)| < |Since(h, x)|
  {
    assert y in Since(h, x) && y !in Since(h, y);
    SubsetSize(Since(h, x), Since(h, y));
  }

  lemma SinceOrder(h: seq<nat>, x: nat, y: nat)
    requires x in h && y in h && x != y
    ensures Last(h, x) < Last(h, y) || Last(h, y) < Last(h, x)
  {
    LastFacts(h, x);
    LastFacts(h, y);
  }

  lemma {:induction false} CachedSize(s: seq<Slot>)
    requires Unique(s)
    ensures |Cached(s)| <= |s| && (Full(s) ==> |Cached(s)| == |s|)
    ensures forall x :: x in Cached(s) <==> Held(s, x)
  {
    if s != [] {
      var t, l := s[..|s| - 1], s[|s| - 1];
      CachedSize(t);
      assert forall i :: 0 <= i < |s| ==> s[i] == if i < |t| then t[i] else l;
      if l.valid {
        assert l.block !in Cached(t);
        CachedSplit(s);
        assert Cached(s) == Cached(t) + {l.block};
      } else {
        CachedSplit(s);
        assert Cached(s) == Cached(t);
      }
      assert Full(s) ==> Full(t) && l.valid;
    }
  }

  lemma CachedSplit(s: seq<Slot>)
    requires s != []
    ensures forall x :: x in Cached(s) <==> x in Cached(s[..|s| - 1]) || (s[|s| - 1].valid && x == s[|s| - 1].block)
  {
    var t := s[..|s| - 1];
    forall x
      ensures x in Cached(s) <==> x in Cached(t) || (s[|s| - 1].valid && x == s[|s| - 1].block)
    {
      if x in Cached(s) {
        var i :| 0 <= i < |s| && s[i].valid && s[i].block == x;
        assert i < |t| ==> t[i].block in Cached(t);
      }
      if x in Cached(t) {
        var i :| 0 <= i < |t| && t[i].valid && t[i].block == x;
        assert s[i].block in Cached(s);
      }
    }
  }

  /** Slot `i` takes block `b` as the newest use. */
  function Touch(s: seq<Slot>, i: nat, b: nat, now: nat, data: seq<byte>): seq<Slot>
    requires i < |s|
  {
    s[i := Slot(true, b, now, data)]
  }

  lemma TouchShape(s: seq<Slot>, h: seq<nat>, i: nat, b: nat, data: seq<byte>)
    requires i < |s| && Unique(s) && Stamped(s, h)
    requires Held(s, b) ==> s[i].valid && s[i].block == b
    ensures var t := Touch(s, i, b, |h| + 1, data); Unique(t) && Stamped(t, h + [b])
  {
    var t := Touch(s, i, b, |h| + 1, data);
    forall j | 0 <= j < |t| && t[j].valid
      ensures t[j].block in h + [b] && t[j].stamp == Last(h + [b], t[j].block) && (j != i ==> t[j].block != b)
    {
      LastAppend(h, b, t[j].block);
      if j != i { assert s[j].block == b ==> Held(s, b); }
    }
  }

  lemma TouchHeld(s: seq<Slot>, i: nat, b: nat, now: nat, data: seq<byte>, x: nat)
    requires i < |s| && Unique(s)
    requires Held(s, b) ==> s[i].valid && s[i].block == b
    ensures Held(Touch(s, i, b, now, data), x) <==>
            x == b || (Held(s, x) && !(s[i].valid && s[i].block == x))
  {
    var t := Touch(s, i, b, now, data);
    assert t[i].valid && t[i].block == b;
    if x != b && Held(s, x) && !(s[i].valid && s[i].block == x) {
      var j :| 0 <= j < |s| && s[j].valid && s[j].block == x;
      assert t[j] == s[j];
    }
    if x != b && Held(t, x) {
      var j :| 0 <= j < |t| && t[j].valid && t[j].block == x;
      assert s[j] == t[j] && s[j].block == x;
    }
  }

  /** A use of a held block changes which blocks are recent only by moving that block to the front. */
  lemma HitRecent(s: seq<Slot>, h: seq<nat>, b: nat, x: nat)
    requires Recent(s, h) && Held(s, b) && b in h && x in h && x != b
    ensures |Since(h + [b], x)| < |s| <==> |Since(h, x)| < |s|
  {
    SinceAppend(h, b, x);
    SinceOrder(h, x, b);
    if Last(h, x) < Last(h, b) {
      assert b in Since(h, x) && Since(h + [b], x) == Since(h, x);
    } else {
      SinceNested(h, b, x);
    }
  }

  lemma Hit(s: seq<Slot>, h: seq<nat>, i: nat, b: nat, data: seq<byte>)
    requires i < |s| && Lru(s, h) && s[i].valid && s[i].block == b
    ensures Lru(Touch(s, i, b, |h| + 1, data), h + [b])
  {
    var t := Touch(s, i, b, |h| + 1, data);
    assert Held(s, b);
    TouchShape(s, h, i, b, data);
    forall x | x in h + [b]
      ensures (Held(t, x) <==> |Since(h + [b], x)| < |t|) && (AllHeld(s, h) ==> Held(t, x))
    {
      TouchHeld(s, i, b, |h| + 1, data, x);
      SinceSelf(h, b);
      if x != b { HitRecent(s, h, b, x); }
    }
    assert Full(s) ==> Full(t);
  }

  lemma FillCount(t: seq<Slot>, h: seq<nat>, x: nat)
    requires Unique(t) && AllHeld(t, h) && x in h
    ensures |Since(h, x)| < |t|
  {
    CachedSize(t);
    assert x in Cached(t) && Since(h, x) <= Cached(t) - {x};
    SubsetSize(Cached(t) - {x}, Since(h, x));
  }

  /** A new block put in a free slot evicts nothing. */
  lemma Fill(s: seq<Slot>, h: seq<nat>, i: nat, b: nat, data: seq<byte>)
    requires i < |s| && Lru(s, h) && !s[i].valid && !Held(s, b)
    ensures Lru(Touch(s, i, b, |h| + 1, data), h + [b])
  {
    var t := Touch(s, i, b, |h| + 1, data);
    TouchShape(s, h, i, b, data);
    forall x | x in h + [b]
      ensures Held(t, x)
    {
      TouchHeld(s, i, b, |h| + 1, data, x);
    }
    forall x | x in h + [b]
      ensures |Since(h + [b], x)| < |t|
    {
      FillCount(t, h + [b], x);
    }
  }

  ghost predicate Oldest(s: seq<Slot>, v: nat) {
    v < |s| && forall j :: 0 <= j < |s| && s[j].valid ==> s[v].stamp <= s[j].stamp
  }

  /** Every other held block was used after the victim, so the victim is the last that still fits. */
  lemma VictimCount(s: seq<Slot>, h: seq<nat>, v: nat)
    requires Lru(s, h) && Full(s) && Oldest(s, v)
    ensures |Since(h, s[v].block)| == |s| - 1
    ensures forall x :: x in h && Held(s, x) && x != s[v].block ==> |Since(h, x)| < |s| - 1
  {
    var gone := s[v].block;
    assert Held(s, gone);
    CachedSize(s);
    forall x | Held(s, x) && x != gone
      ensures x in h && x in Since(h, gone) && |Since(h, x)| < |Since(h, gone)|
    {
      var j :| 0 <= j < |s| && s[j].valid && s[j].block == x;
      SinceOrder(h, x, gone);
      SinceNested(h, gone, x);
    }
    assert Cached(s) - {gone} <= Since(h, gone);
    SubsetSize(Since(h, gone), Cached(s) - {gone});
  }

  lemma EvictRecent(s: seq<Slot>, h: seq<nat>, v: nat, b: nat, x: nat)
    requires Lru(s, h) && Full(s) && Oldest(s, v) && !Held(s, b) && x in h && x != b
    ensures |Since(h + [b], x)| < |s| <==> Held(s, x) && x != s[v].block
  {
    VictimCount(s, h, v);
    SinceAppend(h, b, x);
    if b in h {
      SinceOrder(h, x, b);
      if Last(h, x) < Last(h, b) {
        SinceNested(h, x, b);
      }
    }
    if !(b in h && Last(h, x) < Last(h, b)) {
      assert b !in Since(h, x);
      assert |Since(h, x) + {b}| == |Since(h, x)| + 1;
    } else {
      assert Since(h, x) + {b} == Since(h, x);
    }
    assert Held(s, s[v].block);
  }

  /** A new block in a full cache takes the place of the block unused for longest. */
  lemma Evict(s: seq<Slot>, h: seq<nat>, v: nat, b: nat, data: seq<byte>)
    requires Lru(s, h) && Full(s) && Oldest(s, v) && !Held(s, b)
    ensures Lru(Touch(s, v, b, |h| + 1, data), h + [b])
  {
    var t := Touch(s, v, b, |h| + 1, data);
    TouchShape(s, h, v, b, data);
    forall x | x in h + [b]
      ensures Held(t, x) <==> |Since(h + [b], x)| < |t|
    {
      TouchHeld(s, v, b, |h| + 1, data, x);
      SinceSelf(h, b);
      if x != b { EvictRecent(s, h, v, b, x); }
    }
    assert Full(t);
  }
}
