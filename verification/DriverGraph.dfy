/** Dependency graphs of drivers: which drivers can be loaded, as a least fixed point. */
module DriverGraph {

  type Name = string

  datatype Stage = ArchEarly | Storage | Devfs

  datatype Desc = Desc(name: Name, deps: seq<Name>, stage: Stage, hasLoad: bool, hasUnload: bool)

  type Graph = map<Name, Desc>

  predicate Works(d: Desc, good: set<Name>) {
    d.hasLoad && d.name in good
  }

  /** `x` is loaded already, or loads after dependencies that load in fewer rounds; drivers in `barred` do not load. */
  ghost predicate Within(g: Graph, good: set<Name>, base: set<Name>, barred: set<Name>, n: nat, x: Name) {
    x in base
    || (n > 0 && x in g && Works(g[x], good) && x !in barred
        && forall k :: 0 <= k < |g[x].deps| ==> Within(g, good, base, barred, n - 1, g[x].deps[k]))
  }

  /** The least set that holds `base` and every working driver outside `barred` whose dependencies it holds. */
  ghost predicate Loadable(g: Graph, good: set<Name>, base: set<Name>, barred: set<Name>, x: Name) {
    exists n: nat :: Within(g, good, base, barred, n, x)
  }

  lemma {:induction false} WithinMore(g: Graph, good: set<Name>, base: set<Name>, barred: set<Name>, n: nat, m: nat, x: Name)
    requires n <= m && Within(g, good, base, barred, n, x)
    ensures Within(g, good, base, barred, m, x)
    decreases n
  {
    if x !in base {
      forall k | 0 <= k < |g[x].deps|
        ensures Within(g, good, base, barred, m - 1, g[x].deps[k])
      {
        WithinMore(g, good, base, barred, n - 1, m - 1, g[x].deps[k]);
      }
    }
  }

  /** Barring fewer drivers and starting from more loaded ones loses nothing. */
  lemma {:induction false} WithinFreer(g: Graph, good: set<Name>, base: set<Name>, more: set<Name>, barred: set<Name>,
                                       fewer: set<Name>, n: nat, x: Name)
    requires base <= more && fewer <= barred && Within(g, good, base, barred, n, x)
    ensures Within(g, good, more, fewer, n, x)
    decreases n
  {
    if x !in base {
      forall k | 0 <= k < |g[x].deps|
        ensures Within(g, good, more, fewer, n - 1, g[x].deps[k])
      {
        WithinFreer(g, good, base, more, barred, fewer, n - 1, g[x].deps[k]);
      }
    }
  }

  lemma Freer(g: Graph, good: set<Name>, base: set<Name>, more: set<Name>, barred: set<Name>, fewer: set<Name>, x: Name)
    requires base <= more && fewer <= barred && Loadable(g, good, base, barred, x)
    ensures Loadable(g, good, more, fewer, x)
  {
    var n: nat :| Within(g, good, base, barred, n, x);
    WithinFreer(g, good, base, more, barred, fewer, n, x);
  }

  /** One number of rounds serves a whole list. */
  lemma {:induction false} Rounds(g: Graph, good: set<Name>, base: set<Name>, barred: set<Name>, xs: seq<Name>) returns (n: nat)
    requires forall k :: 0 <= k < |xs| ==> Loadable(g, good, base, barred, xs[k])
    ensures forall k :: 0 <= k < |xs| ==> Within(g, good, base, barred, n, xs[k])
  {
    n := 0;
    var i := 0;
    while i < |xs|
      invariant 0 <= i <= |xs|
      invariant forall k :: 0 <= k < i ==> Within(g, good, base, barred, n, xs[k])
    {
      var m: nat :| Within(g, good, base, barred, m, xs[i]);
      var top := if m < n then n else m;
      forall k | 0 <= k < i
        ensures Within(g, good, base, barred, top, xs[k])
      {
        WithinMore(g, good, base, barred, n, top, xs[k]);
      }
      WithinMore(g, good, base, barred, m, top, xs[i]);
      n := top;
      i := i + 1;
    }
  }

  /** What loads in fewer rounds than `x` loads without it. */
  lemma {:induction false} Without(g: Graph, good: set<Name>, base: set<Name>, barred: set<Name>, x: Name, n: nat, d: Name)
    requires !Within(g, good, base, barred, n, x) && Within(g, good, base, barred, n, d)
    ensures Within(g, good, base, barred + {x}, n, d)
    decreases n
  {
    if d !in base {
      if Within(g, good, base, barred, n - 1, x) {
        WithinMore(g, good, base, barred, n - 1, n, x);
      }
      forall k | 0 <= k < |g[d].deps|
        ensures Within(g, good, base, barred + {x}, n - 1, g[d].deps[k])
      {
        Without(g, good, base, barred, x, n - 1, g[d].deps[k]);
      }
    }
  }

  lemma {:induction false} Least(g: Graph, good: set<Name>, base: set<Name>, barred: set<Name>, x: Name, n: nat) returns (m: nat)
    requires x !in base && Within(g, good, base, barred, n, x)
    ensures m > 0 && Within(g, good, base, barred, m, x) && !Within(g, good, base, barred, m - 1, x)
  {
    m := n;
    while Within(g, good, base, barred, m - 1, x)
      invariant m > 0 && Within(g, good, base, barred, m, x)
      decreases m
    {
      m := m - 1;
    }
  }

  /** A driver loads exactly when it works and its dependencies load without it: the depth-first search loses nothing. */
  /** A driver loads if it is loaded, or if it has a load callback that works and its dependencies load. */
  lemma LoadableRule(g: Graph, good: set<Name>, base: set<Name>, x: Name)
    ensures Loadable(g, good, base, {}, x) <==>
            x in base || (x in g && g[x].hasLoad && g[x].name in good && forall k :: 0 <= k < |g[x].deps| ==> Loadable(g, good, base, {}, g[x].deps[k]))
  {
    if x in base {
      assert Within(g, good, base, {}, 0, x);
    } else if Loadable(g, good, base, {}, x) {
      var n: nat :| Within(g, good, base, {}, n, x);
      assert forall k :: 0 <= k < |g[x].deps| ==> Within(g, good, base, {}, n - 1, g[x].deps[k]);
    } else if x in g && g[x].hasLoad && g[x].name in good && forall k :: 0 <= k < |g[x].deps| ==> Loadable(g, good, base, {}, g[x].deps[k]) {
      var n := Rounds(g, good, base, {}, g[x].deps);
      assert Within(g, good, base, {}, n + 1, x);
    }
  }

  /** Nothing else loads: every set that is closed under this rule holds all that do. */
  lemma {:induction false} LoadableLeast(g: Graph, good: set<Name>, base: set<Name>, s: set<Name>, n: nat, x: Name)
    requires base <= s && Within(g, good, base, {}, n, x)
    requires forall y :: y in g && g[y].hasLoad && g[y].name in good && (forall k :: 0 <= k < |g[y].deps| ==> g[y].deps[k] in s) ==> y in s
    ensures x in s && Loadable(g, good, base, {}, x)
    decreases n
  {
    if x !in base {
      forall k | 0 <= k < |g[x].deps|
        ensures g[x].deps[k] in s
      {
        LoadableLeast(g, good, base, s, n - 1, g[x].deps[k]);
      }
    }
  }

  lemma LoadableIff(g: Graph, good: set<Name>, base: set<Name>, barred: set<Name>, x: Name)
    requires x !in base
    ensures Loadable(g, good, base, barred, x) <==>
            x in g && Works(g[x], good) && x !in barred
            && forall k :: 0 <= k < |g[x].deps| ==> Loadable(g, good, base, barred + {x}, g[x].deps[k])
  {
    if Loadable(g, good, base, barred, x) {
      var n: nat :| Within(g, good, base, barred, n, x);
      var m := Least(g, good, base, barred, x, n);
      forall k | 0 <= k < |g[x].deps|
        ensures Loadable(g, good, base, barred + {x}, g[x].deps[k])
      {
        Without(g, good, base, barred, x, m - 1, g[x].deps[k]);
      }
    }
    if x in g && Works(g[x], good) && x !in barred
       && forall k :: 0 <= k < |g[x].deps| ==> Loadable(g, good, base, barred + {x}, g[x].deps[k]) {
      var n := Rounds(g, good, base, barred + {x}, g[x].deps);
      forall k | 0 <= k < |g[x].deps|
        ensures Within(g, good, base, barred, n, g[x].deps[k])
      {
        WithinFreer(g, good, base, base, barred + {x}, barred, n, g[x].deps[k]);
      }
      assert Within(g, good, base, barred, n + 1, x);
    }
  }

  ghost predicate AllLoadable(g: Graph, good: set<Name>, base: set<Name>, barred: set<Name>, xs: set<Name>) {
    forall x :: x in xs ==> Loadable(g, good, base, barred, x)
  }

  /** Loading some loadable drivers first does not change what is loadable. */
  lemma {:induction false} Absorb(g: Graph, good: set<Name>, base: set<Name>, more: set<Name>, barred: set<Name>, n: nat, x: Name)
    requires base <= more && AllLoadable(g, good, base, barred, more) && Within(g, good, more, barred, n, x)
    ensures Loadable(g, good, base, barred, x)
    decreases n
  {
    if x !in more {
      forall k | 0 <= k < |g[x].deps|
        ensures Loadable(g, good, base, barred, g[x].deps[k])
      {
        Absorb(g, good, base, more, barred, n - 1, g[x].deps[k]);
      }
      var m := Rounds(g, good, base, barred, g[x].deps);
      assert Within(g, good, base, barred, m + 1, x);
    }
  }

  lemma SameLoadable(g: Graph, good: set<Name>, base: set<Name>, more: set<Name>, barred: set<Name>, x: Name)
    requires base <= more && AllLoadable(g, good, base, barred, more)
    ensures Loadable(g, good, more, barred, x) <==> Loadable(g, good, base, barred, x)
  {
    if Loadable(g, good, more, barred, x) {
      var n: nat :| Within(g, good, more, barred, n, x);
      Absorb(g, good, base, more, barred, n, x);
    }
    if Loadable(g, good, base, barred, x) {
      Freer(g, good, base, more, barred, barred, x);
    }
  }

  /** `x` is `from` or one of its direct or indirect dependencies. */
  ghost predicate Needs(g: Graph, n: nat, from: Name, x: Name) {
    x == from || (n > 0 && from in g && exists k :: 0 <= k < |g[from].deps| && Needs(g, n - 1, g[from].deps[k], x))
  }

  ghost predicate Needed(g: Graph, from: Name, x: Name) {
    exists n: nat :: Needs(g, n, from, x)
  }

  lemma NeededDep(g: Graph, from: Name, k: nat, x: Name)
    requires from in g && k < |g[from].deps| && Needed(g, g[from].deps[k], x)
    ensures Needed(g, from, x)
  {
    var n: nat :| Needs(g, n, g[from].deps[k], x);
    assert Needs(g, n + 1, from, x);
  }

  /** Every dependency of a loaded driver is loaded. */
  ghost predicate Closed(g: Graph, loaded: set<Name>) {
    loaded <= g.Keys && forall x, k :: x in loaded && 0 <= k < |g[x].deps| ==> g[x].deps[k] in loaded
  }

  /** Each driver of `c` depends on a driver of `c`. */
  ghost predicate Circular(g: Graph, c: set<Name>) {
    c != {} && c <= g.Keys && forall x :: x in c ==> DependsIn(g[x].deps, c)
  }

  ghost predicate DependsIn(deps: seq<Name>, c: set<Name>) {
    exists k :: 0 <= k < |deps| && deps[k] in c
  }

  ghost predicate Acyclic(g: Graph, loaded: set<Name>) {
    forall c: set<Name> :: Circular(g, c) ==> !(c <= loaded)
  }

  lemma DependsBelow(deps: seq<Name>, c: set<Name>, x: Name)
    requires DependsIn(deps, c) && x !in deps
    ensures DependsIn(deps, c - {x}) && c - {x} != {}
  {
    var k :| 0 <= k < |deps| && deps[k] in c;
    assert deps[k] in c - {x};
  }

  /** A cycle through `x` leaves a cycle when nothing loaded depends on `x`. */
  lemma CycleBelow(g: Graph, loaded: set<Name>, x: Name, c: set<Name>)
    requires Closed(g, loaded) && x !in loaded && x in g
    requires forall k :: 0 <= k < |g[x].deps| ==> g[x].deps[k] in loaded
    requires Circular(g, c) && c <= loaded + {x}
    ensures Circular(g, c - {x}) && c - {x} <= loaded
  {
    hide DependsIn;
    forall y | y in c
      ensures DependsIn(g[y].deps, c - {x}) && c - {x} != {}
    {
      assert x !in g[y].deps;
      DependsBelow(g[y].deps, c, x);
    }
  }

  /** A driver loaded after its dependencies closes no cycle. */
  lemma AddLoaded(g: Graph, loaded: set<Name>, x: Name)
    requires Closed(g, loaded) && Acyclic(g, loaded) && x in g && x !in loaded
    requires forall k :: 0 <= k < |g[x].deps| ==> g[x].deps[k] in loaded
    ensures Closed(g, loaded + {x}) && Acyclic(g, loaded + {x})
  {
    hide Circular;
    forall c: set<Name> | Circular(g, c)
      ensures !(c <= loaded + {x})
    {
      if c <= loaded + {x} {
        CycleBelow(g, loaded, x, c);
      }
    }
  }

  /** Drivers agree on the loaded part of two graphs. */
  ghost predicate Agree(g: Graph, h: Graph, loaded: set<Name>) {
    forall x :: x in loaded ==> x in g && x in h && g[x] == h[x]
  }

  lemma FewerLoaded(g: Graph, h: Graph, loaded: set<Name>, fewer: set<Name>)
    requires Acyclic(g, loaded) && fewer <= loaded && Agree(g, h, fewer)
    ensures Acyclic(h, fewer)
  {
    forall c: set<Name> | Circular(h, c)
      ensures !(c <= fewer)
    {
      if c <= fewer {
        forall x | x in c
          ensures DependsIn(g[x].deps, c)
        {
          assert DependsIn(h[x].deps, c);
        }
        assert Circular(g, c);
      }
    }
  }

  /** A cycle with nothing loaded on it is never loadable, whatever works. */
  lemma {:induction false} CycleStuck(g: Graph, good: set<Name>, base: set<Name>, barred: set<Name>, c: set<Name>, n: nat, x: Name)
    requires Circular(g, c) && c !! base && x in c
    ensures !Within(g, good, base, barred, n, x)
    decreases n
  {
    if n > 0 {
      var k :| 0 <= k < |g[x].deps| && g[x].deps[k] in c;
      CycleStuck(g, good, base, barred, c, n - 1, g[x].deps[k]);
    }
  }
}
