/** The driver registry: registration, dependency-driven loading, unloading. */
module Drivers {
  import opened DriverGraph

  datatype Entry = Entry(desc: Desc, loaded: bool, loading: bool)

  datatype Err = Fine | NotFound | AlreadyLoaded | NotLoaded | Dependency | Busy | InitFailed | Unsupported

  type Entries = seq<Entry>

  const REGISTRY_MAX: nat := 64

  ghost predicate Distinct(es: Entries) {
    forall i, j :: 0 <= i < j < |es| ==> es[i].desc.name != es[j].desc.name
  }

  ghost function NamesOf(es: Entries): set<Name> {
    set i | 0 <= i < |es| :: es[i].desc.name
  }

  ghost function LoadedOf(es: Entries): set<Name> {
    set i | 0 <= i < |es| && es[i].loaded :: es[i].desc.name
  }

  ghost function LoadingOf(es: Entries): set<Name> {
    set i | 0 <= i < |es| && es[i].loading :: es[i].desc.name
  }

  ghost function IndexOf(es: Entries, x: Name): (i: nat)
    requires x in NamesOf(es)
    ensures i < |es| && es[i].desc.name == x
  {
    var i :| 0 <= i < |es| && es[i].desc.name == x;
    i
  }

  ghost function GraphOf(es: Entries): Graph {
    map x | x in NamesOf(es) :: es[IndexOf(es, x)].desc
  }

  /** No two drivers share a name, and the loaded ones have all their dependencies loaded, without a cycle. */
  ghost predicate Sound(es: Entries) {
    Distinct(es) && Closed(GraphOf(es), LoadedOf(es)) && Acyclic(GraphOf(es), LoadedOf(es))
  }

  lemma EntryFacts(es: Entries, i: nat)
    requires Distinct(es) && i < |es|
    ensures var x := es[i].desc.name;
            && x in NamesOf(es) && x in GraphOf(es) && GraphOf(es)[x] == es[i].desc
            && (x in LoadedOf(es) <==> es[i].loaded) && (x in LoadingOf(es) <==> es[i].loading)
  {
  }

  /** The same drivers with the same `loading` flags. */
  ghost predicate Same(es: Entries, fs: Entries) {
    |es| == |fs| && forall i :: 0 <= i < |es| ==> fs[i].desc == es[i].desc && fs[i].loading == es[i].loading
  }

  ghost predicate SameDescs(es: Entries, fs: Entries) {
    |es| == |fs| && forall i :: 0 <= i < |es| ==> fs[i].desc == es[i].desc
  }

  lemma SameNames(es: Entries, fs: Entries)
    requires SameDescs(es, fs)
    ensures NamesOf(fs) == NamesOf(es) && (Distinct(es) ==> Distinct(fs))
    ensures Same(es, fs) ==> LoadingOf(fs) == LoadingOf(es)
  {
    forall i | 0 <= i < |es|
      ensures es[i].desc.name in NamesOf(fs) && fs[i].desc.name in NamesOf(es)
    {
      assert fs[i].desc == es[i].desc;
    }
  }

  lemma SameGraph(es: Entries, fs: Entries)
    requires Distinct(es) && SameDescs(es, fs)
    ensures Distinct(fs) && NamesOf(fs) == NamesOf(es) && GraphOf(fs) == GraphOf(es)
    ensures Same(es, fs) ==> LoadingOf(fs) == LoadingOf(es)
  {
    hide LoadedOf, LoadingOf, Same, Distinct;
    SameNames(es, fs);
    forall x | x in NamesOf(es)
      ensures GraphOf(es)[x] == GraphOf(fs)[x]
    {
      EntryFacts(es, IndexOf(es, x));
      EntryFacts(fs, IndexOf(es, x));
    }
  }

  function Flag(es: Entries, i: nat, loading: bool): Entries
    requires i < |es|
  {
    es[i := es[i].(loading := loading)]
  }

  function Mark(es: Entries, i: nat, loaded: bool): Entries
    requires i < |es|
  {
    es[i := es[i].(loaded := loaded)]
  }

  lemma FlagFacts(es: Entries, i: nat, on: bool)
    requires Distinct(es) && i < |es|
    ensures var fs := Flag(es, i, on);
            && SameDescs(es, fs) && LoadedOf(fs) == LoadedOf(es)
            && LoadingOf(fs) == if on then LoadingOf(es) + {es[i].desc.name} else LoadingOf(es) - {es[i].desc.name}
  {
    var fs := Flag(es, i, on);
    SameGraph(es, fs);
    forall j | 0 <= j < |es|
      ensures var x := es[j].desc.name;
              && (x in LoadedOf(fs) <==> x in LoadedOf(es))
              && (x in LoadingOf(fs) <==> if j == i then on else x in LoadingOf(es))
    {
      EntryFacts(es, j);
      EntryFacts(fs, j);
    }
  }

  lemma MarkFacts(es: Entries, i: nat, on: bool)
    requires Distinct(es) && i < |es|
    ensures var fs := Mark(es, i, on);
            && Same(es, fs)
            && LoadedOf(fs) == if on then LoadedOf(es) + {es[i].desc.name} else LoadedOf(es) - {es[i].desc.name}
  {
    var fs := Mark(es, i, on);
    SameGraph(es, fs);
    forall j | 0 <= j < |es|
      ensures var x := es[j].desc.name;
              x in LoadedOf(fs) <==> if j == i then on else x in LoadedOf(es)
    {
      EntryFacts(es, j);
      EntryFacts(fs, j);
    }
  }

  /** From `base` to `now` only loadable drivers were loaded, each one needed by `x`. */
  ghost predicate Grew(g: Graph, good: set<Name>, base: set<Name>, barred: set<Name>, now: set<Name>, x: Name) {
    base <= now && AllLoadable(g, good, base, barred, now)
    && forall y :: y in now && y !in base ==> Needed(g, x, y)
  }

  lemma GrewNot(g: Graph, good: set<Name>, base: set<Name>, barred: set<Name>, x: Name)
    requires AllLoadable(g, good, base, barred, base)
    ensures Grew(g, good, base, barred, base, x)
  {
  }

  lemma BaseLoadable(g: Graph, good: set<Name>, base: set<Name>, barred: set<Name>)
    ensures AllLoadable(g, good, base, barred, base)
  {
    forall x | x in base
      ensures Loadable(g, good, base, barred, x)
    {
      assert Within(g, good, base, barred, 0, x);
    }
  }

  /** Growth for the dependency `k` of `x`, after growth for the earlier ones. */
  lemma GrewStep(g: Graph, good: set<Name>, base: set<Name>, barred: set<Name>, mid: set<Name>, now: set<Name>, x: Name, k: nat)
    requires x in g && k < |g[x].deps|
    requires Grew(g, good, base, barred, mid, x) && Grew(g, good, mid, barred, now, g[x].deps[k])
    ensures Grew(g, good, base, barred, now, x)
  {
    hide Loadable, Needed;
    forall y | y in now
      ensures Loadable(g, good, base, barred, y) && (y !in base ==> Needed(g, x, y))
    {
      SameLoadable(g, good, base, mid, barred, y);
      if y !in mid { NeededDep(g, x, k, y); }
    }
  }

  lemma GrewFreer(g: Graph, good: set<Name>, base: set<Name>, barred: set<Name>, now: set<Name>, x: Name)
    requires Grew(g, good, base, barred + {x}, now, x)
    ensures Grew(g, good, base, barred, now, x)
  {
    hide Loadable, Needed;
    forall y | y in now
      ensures Loadable(g, good, base, barred, y)
    {
      Freer(g, good, base, base, barred + {x}, barred, y);
    }
  }

  lemma GrewSelf(g: Graph, good: set<Name>, base: set<Name>, barred: set<Name>, now: set<Name>, x: Name)
    requires Grew(g, good, base, barred, now, x) && Loadable(g, good, base, barred, x)
    ensures Grew(g, good, base, barred, now + {x}, x)
  {
    hide Loadable;
    assert Needs(g, 0, x, x);
  }

  /** A barred driver that is not loaded stays unloaded. */
  lemma BarredStays(g: Graph, good: set<Name>, base: set<Name>, barred: set<Name>, now: set<Name>, x: Name, y: Name)
    requires Grew(g, good, base, barred, now, x) && y in barred && y !in base
    ensures y !in now
  {
  }

  lemma FewerLeft(es: Entries, i: nat)
    requires Distinct(es) && i < |es| && !es[i].loading
    ensures |NamesOf(es) - LoadingOf(Flag(es, i, true))| < |NamesOf(es) - LoadingOf(es)|
  {
    FlagFacts(es, i, true);
    EntryFacts(es, i);
    var left, x := NamesOf(es) - LoadingOf(es), es[i].desc.name;
    assert NamesOf(es) - LoadingOf(Flag(es, i, true)) == left - {x};
    assert left == (left - {x}) + {x};
  }

  ghost predicate Succeeded(e: Err) {
    e.Fine? || e.AlreadyLoaded?
  }

  /** What a load started in `es`, asked for `x`, may leave behind. */
  ghost predicate Served(es: Entries, good: set<Name>, x: Name, fs: Entries, ok: bool) {
    && Same(es, fs) && Sound(fs)
    && Grew(GraphOf(es), good, LoadedOf(es), LoadingOf(es), LoadedOf(fs), x)
    && (ok <==> Loadable(GraphOf(es), good, LoadedOf(es), LoadingOf(es), x))
    && (ok ==> x in LoadedOf(fs))
  }

  lemma ServedFacts(es: Entries, good: set<Name>, x: Name, fs: Entries, ok: bool)
    requires Distinct(es) && Served(es, good, x, fs, ok)
    ensures Same(es, fs) && Sound(fs) && NamesOf(fs) == NamesOf(es)
    ensures GraphOf(fs) == GraphOf(es) && LoadingOf(fs) == LoadingOf(es)
    ensures Grew(GraphOf(es), good, LoadedOf(es), LoadingOf(es), LoadedOf(fs), x)
    ensures ok <==> Loadable(GraphOf(es), good, LoadedOf(es), LoadingOf(es), x)
    ensures ok ==> x in LoadedOf(fs)
  {
    hide GraphOf, Sound, Grew, Loadable, LoadedOf;
    SameGraph(es, fs);
  }

  /** The first `k` dependencies of the driver at `i` were loaded, starting from `es` with `i` flagged. */
  ghost predicate Halfway(es: Entries, good: set<Name>, i: nat, k: nat, fs: Entries)
    requires i < |es|
  {
    var g, x, base, barred := GraphOf(es), es[i].desc.name, LoadedOf(es), LoadingOf(es) + {es[i].desc.name};
    && Same(Flag(es, i, true), fs) && Sound(fs) && k <= |es[i].desc.deps|
    && Grew(g, good, base, barred, LoadedOf(fs), x)
    && (forall j :: 0 <= j < k ==> es[i].desc.deps[j] in LoadedOf(fs))
    && (forall j :: 0 <= j < k ==> Loadable(g, good, base, barred, es[i].desc.deps[j]))
  }

  lemma SoundSame(es: Entries, fs: Entries)
    requires Sound(es) && SameDescs(es, fs) && LoadedOf(fs) == LoadedOf(es)
    ensures Sound(fs) && GraphOf(fs) == GraphOf(es) && NamesOf(fs) == NamesOf(es)
  {
    hide GraphOf, Closed, Acyclic, NamesOf, LoadedOf;
    SameGraph(es, fs);
  }

  lemma HalfwayStart(es: Entries, good: set<Name>, i: nat)
    requires Sound(es) && i < |es|
    ensures Halfway(es, good, i, 0, Flag(es, i, true))
  {
    hide GraphOf, Closed, Acyclic, Grew, Loadable, LoadedOf, LoadingOf, Distinct, Sound;
    SoundDistinct(es);
    FlagFacts(es, i, true);
    SoundSame(es, Flag(es, i, true));
    var barred := LoadingOf(es) + {es[i].desc.name};
    BaseLoadable(GraphOf(es), good, LoadedOf(es), barred);
    GrewNot(GraphOf(es), good, LoadedOf(es), barred, es[i].desc.name);
  }

  lemma SoundDistinct(es: Entries)
    requires Sound(es)
    ensures Distinct(es)
  {
  }

  /** In the middle of a load the registry differs from the one it started in only by the flag and by loaded drivers. */
  lemma HalfwayFacts(es: Entries, good: set<Name>, i: nat, k: nat, fs: Entries)
    requires Distinct(es) && i < |es| && Halfway(es, good, i, k, fs)
    ensures |fs| == |es| && fs[i].desc == es[i].desc && SameDescs(es, fs) && Distinct(fs) && Sound(fs)
    ensures NamesOf(fs) == NamesOf(es) && GraphOf(fs) == GraphOf(es)
    ensures LoadingOf(fs) == LoadingOf(es) + {es[i].desc.name}
    ensures es[i].desc.name in GraphOf(es) && GraphOf(es)[es[i].desc.name] == es[i].desc
  {
    hide GraphOf, Closed, Acyclic, Grew, Loadable, LoadedOf, LoadingOf, Distinct, Sound;
    FlagFacts(es, i, true);
    EntryFacts(es, i);
    SameGraph(es, Flag(es, i, true));
    SameGraph(Flag(es, i, true), fs);
    SoundDistinct(fs);
  }

  /** One more dependency served: it succeeded exactly when it is loadable from where the load began. */
  lemma HalfwayStep(es: Entries, good: set<Name>, i: nat, k: nat, fs: Entries, hs: Entries, ok: bool)
    requires Distinct(es) && i < |es| && Halfway(es, good, i, k, fs) && k < |es[i].desc.deps|
    requires Served(fs, good, es[i].desc.deps[k], hs, ok)
    ensures Same(Flag(es, i, true), hs) && Sound(hs)
    ensures Grew(GraphOf(es), good, LoadedOf(es), LoadingOf(es) + {es[i].desc.name}, LoadedOf(hs), es[i].desc.name)
    ensures ok <==> Loadable(GraphOf(es), good, LoadedOf(es), LoadingOf(es) + {es[i].desc.name}, es[i].desc.deps[k])
    ensures ok ==> Halfway(es, good, i, k + 1, hs)
  {
    hide GraphOf, Closed, Acyclic, Loadable, Needed, LoadedOf, LoadingOf, Distinct, Sound, Served, AllLoadable;
    HalfwayFacts(es, good, i, k, fs);
    ServedFacts(fs, good, es[i].desc.deps[k], hs, ok);
    var g, x, d := GraphOf(es), es[i].desc.name, es[i].desc.deps[k];
    var base, barred := LoadedOf(es), LoadingOf(es) + {x};
    GrewStep(g, good, base, barred, LoadedOf(fs), LoadedOf(hs), x, k);
    SameLoadable(g, good, base, LoadedOf(fs), barred, d);
  }

  /** The flag is cleared again; the drivers loaded on the way stay loaded. */
  lemma Unflag(es: Entries, good: set<Name>, i: nat, fs: Entries)
    requires Distinct(es) && i < |es| && !es[i].loading
    requires Same(Flag(es, i, true), fs) && Sound(fs)
    requires Grew(GraphOf(es), good, LoadedOf(es), LoadingOf(es) + {es[i].desc.name}, LoadedOf(fs), es[i].desc.name)
    ensures var hs := Flag(fs, i, false);
            && Same(es, hs) && Sound(hs) && LoadedOf(hs) == LoadedOf(fs)
            && Grew(GraphOf(es), good, LoadedOf(es), LoadingOf(es), LoadedOf(hs), es[i].desc.name)
  {
    hide GraphOf, Closed, Acyclic, Grew, Loadable, LoadedOf, LoadingOf, Distinct, Sound;
    SoundDistinct(fs);
    FlagFacts(fs, i, false);
    SoundSame(fs, Flag(fs, i, false));
    GrewFreer(GraphOf(es), good, LoadedOf(es), LoadingOf(es), LoadedOf(fs), es[i].desc.name);
  }

  lemma NotLoadedYet(es: Entries, good: set<Name>, i: nat, k: nat, fs: Entries)
    requires Distinct(es) && i < |es| && !es[i].loaded && Halfway(es, good, i, k, fs)
    ensures es[i].desc.name !in LoadedOf(es) && es[i].desc.name !in LoadedOf(fs)
  {
    hide GraphOf, Closed, Acyclic, Loadable, LoadedOf, LoadingOf, Distinct, Sound, Grew;
    EntryFacts(es, i);
    var x := es[i].desc.name;
    BarredStays(GraphOf(es), good, LoadedOf(es), LoadingOf(es) + {x}, LoadedOf(fs), x, x);
  }

  /** All dependencies are in, and the driver's own load works. */
  lemma Finish(es: Entries, good: set<Name>, i: nat, fs: Entries)
    requires Distinct(es) && i < |es| && !es[i].loaded && !es[i].loading && Works(es[i].desc, good)
    requires Halfway(es, good, i, |es[i].desc.deps|, fs)
    ensures Served(es, good, es[i].desc.name, Flag(Mark(fs, i, true), i, false), true)
  {
    hide GraphOf, Closed, Acyclic, Loadable, LoadedOf, LoadingOf, Distinct, Grew, Needed, AllLoadable;
    var g, x, n := GraphOf(es), es[i].desc.name, |es[i].desc.deps|;
    var base, hs := LoadedOf(es), Mark(fs, i, true);
    HalfwayFacts(es, good, i, n, fs);
    NotLoadedYet(es, good, i, n, fs);
    EntryFacts(es, i);
    LoadableIff(g, good, base, LoadingOf(es), x);
    AddLoaded(g, LoadedOf(fs), x);
    MarkFacts(fs, i, true);
    SameGraph(fs, hs);
    FlagFacts(hs, i, false);
    SoundSame(hs, Flag(hs, i, false));
    GrewFreer(g, good, base, LoadingOf(es), LoadedOf(fs), x);
    GrewSelf(g, good, base, LoadingOf(es), LoadedOf(fs), x);
  }

  /** The load failed: a dependency is not loadable without this driver, or its own load does not work. */
  lemma GiveUp(es: Entries, good: set<Name>, i: nat, fs: Entries)
    requires Distinct(es) && i < |es| && !es[i].loaded && !es[i].loading
    requires Same(Flag(es, i, true), fs) && Sound(fs)
    requires Grew(GraphOf(es), good, LoadedOf(es), LoadingOf(es) + {es[i].desc.name}, LoadedOf(fs), es[i].desc.name)
    requires !Works(es[i].desc, good)
             || exists k :: 0 <= k < |es[i].desc.deps|
                  && !Loadable(GraphOf(es), good, LoadedOf(es), LoadingOf(es) + {es[i].desc.name}, es[i].desc.deps[k])
    ensures Served(es, good, es[i].desc.name, Flag(fs, i, false), false)
  {
    hide GraphOf, Closed, Acyclic, Loadable, LoadedOf, LoadingOf, Distinct, Grew, Sound;
    Unflag(es, good, i, fs);
    EntryFacts(es, i);
    LoadableIff(GraphOf(es), good, LoadedOf(es), LoadingOf(es), es[i].desc.name);
  }

  lemma ServedAtOnce(es: Entries, good: set<Name>, x: Name, ok: bool)
    requires Sound(es)
    requires ok <==> x in LoadedOf(es)
    requires x !in LoadedOf(es) ==> x !in NamesOf(es) || x in LoadingOf(es)
    ensures Served(es, good, x, es, ok)
  {
    hide Closed, Acyclic, LoadedOf, LoadingOf, Loadable;
    BaseLoadable(GraphOf(es), good, LoadedOf(es), LoadingOf(es));
    GrewNot(GraphOf(es), good, LoadedOf(es), LoadingOf(es), x);
    if x !in LoadedOf(es) { LoadableIff(GraphOf(es), good, LoadedOf(es), LoadingOf(es), x); }
  }
}
