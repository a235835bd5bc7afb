/** The operations of the driver registry. */
module DriverOps {
  import opened DriverGraph
  import opened Drivers

  /** `busy` and `unloads` are what the driver's own callbacks answer. */
  datatype Op =
    | Register(desc: Desc)
    | Unregister(name: Name)
    | Load(name: Name, good: set<Name>)
    | Unload(name: Name, busy: bool, unloads: bool)
    | LoadStage(stage: Stage, good: set<Name>)

  ghost predicate Idle(es: Entries) {
    forall i :: 0 <= i < |es| ==> !es[i].loading
  }

  lemma IdleSame(es: Entries, fs: Entries)
    requires Idle(es) && Same(es, fs)
    ensures Idle(fs) && LoadingOf(es) == {}
  {
  }

  /** No loaded driver other than `x` depends on `x`. */
  ghost predicate Unneeded(es: Entries, x: Name) {
    forall i :: 0 <= i < |es| && es[i].loaded && es[i].desc.name != x ==> x !in es[i].desc.deps
  }

  lemma UnloadKeeps(es: Entries, i: nat)
    requires Sound(es) && i < |es| && Unneeded(es, es[i].desc.name)
    ensures Sound(Mark(es, i, false)) && GraphOf(Mark(es, i, false)) == GraphOf(es)
  {
    hide GraphOf, Acyclic, NamesOf, LoadedOf;
    var g, x, fs := GraphOf(es), es[i].desc.name, Mark(es, i, false);
    MarkFacts(es, i, false);
    SameGraph(es, fs);
    forall y, k | y in LoadedOf(fs) && 0 <= k < |g[y].deps|
      ensures g[y].deps[k] != x
    {
      LoadedEntry(es, y);
    }
    FewerLoaded(g, g, LoadedOf(es), LoadedOf(fs));
  }

  lemma LoadedEntry(es: Entries, x: Name)
    requires Distinct(es) && x in LoadedOf(es)
    ensures exists i :: 0 <= i < |es| && es[i].loaded && es[i].desc.name == x && x in GraphOf(es) && GraphOf(es)[x] == es[i].desc
  {
    var i :| 0 <= i < |es| && es[i].loaded && es[i].desc.name == x;
    EntryFacts(es, i);
  }

  /** Drivers of `fs` are those of `es` where the loaded ones are concerned. */
  lemma SoundOther(es: Entries, fs: Entries)
    requires Sound(es) && Distinct(fs) && LoadedOf(fs) == LoadedOf(es)
    requires Agree(GraphOf(es), GraphOf(fs), LoadedOf(es))
    ensures Sound(fs)
  {
    hide GraphOf, Acyclic, NamesOf, LoadedOf;
    FewerLoaded(GraphOf(es), GraphOf(fs), LoadedOf(es), LoadedOf(es));
  }

  function Drop(es: Entries, i: nat): Entries
    requires i < |es|
  {
    es[..i] + es[i + 1..]
  }

  lemma DropDistinct(es: Entries, i: nat)
    requires Distinct(es) && i < |es|
    ensures Distinct(Drop(es, i)) && |Drop(es, i)| == |es| - 1
    ensures forall k :: 0 <= k < |es| - 1 ==> Drop(es, i)[k] == es[if k < i then k else k + 1]
  {
  }

  lemma DropAt(es: Entries, i: nat, y: Name)
    requires Distinct(es) && i < |es| && !es[i].loaded
    ensures var fs, x := Drop(es, i), es[i].desc.name;
            && (y in NamesOf(fs) <==> y in NamesOf(es) && y != x)
            && (y in LoadedOf(fs) <==> y in LoadedOf(es))
            && (y in GraphOf(fs) <==> y in GraphOf(es) && y != x)
            && (y in GraphOf(fs) ==> GraphOf(fs)[y] == GraphOf(es)[y])
  {
    hide GraphOf, NamesOf, LoadedOf, Drop;
    var fs, x := Drop(es, i), es[i].desc.name;
    DropDistinct(es, i);
    Members(es);
    Members(fs);
    EntryFacts(es, i);
    if y in NamesOf(es) {
      var j := IndexOf(es, y);
      EntryFacts(es, j);
      if j != i {
        var k := if j < i then j else j - 1;
        DropEntry(es, i, j, k);
        EntryFacts(fs, k);
      } else {
        DropName(es, i);
      }
    } else if y in NamesOf(fs) {
      var k := IndexOf(fs, y);
      EntryFacts(es, if k < i then k else k + 1);
    }
  }

  lemma DropEntry(es: Entries, i: nat, j: nat, k: nat)
    requires i < |es| && j < |es| && j != i && k == if j < i then j else j - 1
    ensures |Drop(es, i)| == |es| - 1 && k < |es| - 1 && Drop(es, i)[k] == es[j]
  {
  }

  lemma DropName(es: Entries, i: nat)
    requires Distinct(es) && i < |es|
    ensures es[i].desc.name !in NamesOf(Drop(es, i)) && es[i].desc.name !in LoadedOf(Drop(es, i))
  {
    Absent(Drop(es, i), es[i].desc.name);
  }

  lemma DropFacts(es: Entries, i: nat)
    requires Distinct(es) && i < |es| && !es[i].loaded
    ensures var fs := Drop(es, i);
            && Distinct(fs) && GraphOf(fs) == GraphOf(es) - {es[i].desc.name} && LoadedOf(fs) == LoadedOf(es)
            && NamesOf(fs) == NamesOf(es) - {es[i].desc.name}
  {
    hide GraphOf, NamesOf, LoadedOf, Distinct, Drop;
    DropDistinct(es, i);
    forall y {
      DropAt(es, i, y);
    }
  }

  lemma Absent(es: Entries, x: Name)
    requires forall i :: 0 <= i < |es| ==> es[i].desc.name != x
    ensures x !in NamesOf(es) && x !in LoadedOf(es)
  {
  }

  lemma Members(es: Entries)
    ensures forall x :: x in NamesOf(es) ==> exists i :: 0 <= i < |es| && es[i].desc.name == x
    ensures forall x :: x in LoadedOf(es) ==> x in NamesOf(es)
    ensures GraphOf(es).Keys == NamesOf(es)
  {
    forall x | x in LoadedOf(es)
      ensures x in NamesOf(es)
    {
      var i :| 0 <= i < |es| && es[i].loaded && es[i].desc.name == x;
    }
  }

  lemma AddFacts(es: Entries, d: Desc)
    requires Distinct(es) && d.name !in NamesOf(es)
    ensures var fs := es + [Entry(d, false, false)];
            && Distinct(fs) && GraphOf(fs) == GraphOf(es)[d.name := d] && LoadedOf(fs) == LoadedOf(es)
  {
    var fs := es + [Entry(d, false, false)];
    assert Distinct(fs) by {
      forall i | 0 <= i < |es|
        ensures es[i].desc.name != d.name
      {
        assert es[i].desc.name in NamesOf(es);
      }
    }
    assert Drop(fs, |es|) == es;
    DropFacts(fs, |es|);
    EntryFacts(fs, |es|);
    assert GraphOf(fs) == (GraphOf(fs) - {d.name})[d.name := d];
  }

  class Registry {
    var entries: Entries

    ghost predicate Valid()
      reads this
    {
      |entries| <= REGISTRY_MAX && Sound(entries) && Idle(entries)
    }

    constructor ()
      ensures Valid() && entries == []
    {
      entries := [];
      assert LoadedOf([]) == {};
    }

    method Find(name: Name) returns (i: int)
      ensures i < 0 <==> name !in NamesOf(entries)
      ensures i >= 0 ==> i < |entries| && entries[i].desc.name == name
    {
      i := 0;
      while i < |entries|
        invariant 0 <= i <= |entries|
        invariant forall j :: 0 <= j < i ==> entries[j].desc.name != name
      {
        if entries[i].desc.name == name { return; }
        i := i + 1;
      }
      i := -1;
    }

    /** Succeeds exactly when the driver is loadable without the drivers whose load is under way.
        Every dependency graph is allowed, cycles included. */
    method Load(name: Name, good: set<Name>) returns (e: Err)
      requires Sound(entries)
      modifies this
      ensures Served(old(entries), good, name, entries, Succeeded(e))
      ensures e.NotFound? <== name !in NamesOf(old(entries))
      ensures e.AlreadyLoaded? <==> name in LoadedOf(old(entries))
      decreases |NamesOf(entries) - LoadingOf(entries)|, 2
    {
      hide Sound, NamesOf, LoadedOf, LoadingOf, Served;
      var i := Find(name);
      if i < 0 {
        Members(entries);
        ServedAtOnce(entries, good, name, false);
        return NotFound;
      }
      SoundDistinct(entries);
      EntryFacts(entries, i);
      if entries[i].loaded {
        ServedAtOnce(entries, good, name, true);
        return AlreadyLoaded;
      }
      e := LoadEntry(i, good);
    }

    method LoadEntry(i: nat, good: set<Name>) returns (e: Err)
      requires Sound(entries) && i < |entries| && !entries[i].loaded
      modifies this
      ensures Served(old(entries), good, old(entries[i].desc.name), entries, Succeeded(e))
      ensures !e.AlreadyLoaded?
      decreases |NamesOf(entries) - LoadingOf(entries)|, 1
    {
      hide Sound, NamesOf, LoadedOf, LoadingOf, Served, Halfway, GraphOf, Loadable, Grew, Same;
      SoundDistinct(entries);
      EntryFacts(entries, i);
      if entries[i].loading {
        ServedAtOnce(entries, good, entries[i].desc.name, false);
        return Dependency;
      }
      ghost var es := entries;
      HalfwayStart(es, good, i);
      FewerLeft(es, i);
      entries := Flag(entries, i, true);
      e := LoadDeps(es, i, good);
      if e.Fine? {
        HalfwayFacts(es, good, i, |es[i].desc.deps|, entries);
        var d := entries[i].desc;
        if !d.hasLoad || d.name !in good {
          e := if d.hasLoad then InitFailed else Unsupported;
          HalfwayGrew(es, good, i, |es[i].desc.deps|, entries);
          GiveUp(es, good, i, entries);
          entries := Flag(entries, i, false);
        } else {
          Finish(es, good, i, entries);
          entries := Flag(Mark(entries, i, true), i, false);
        }
      } else {
        GiveUp(es, good, i, entries);
        SameLength(Flag(es, i, true), entries);
        entries := Flag(entries, i, false);
      }
    }

    /** Loads the dependencies of the flagged driver in order and stops at the first failure. */
    method LoadDeps(ghost es: Entries, i: nat, good: set<Name>) returns (e: Err)
      requires Distinct(es) && i < |es| && !es[i].loading && entries == Flag(es, i, true)
      requires Halfway(es, good, i, 0, entries)
      requires |NamesOf(es) - LoadingOf(Flag(es, i, true))| < |NamesOf(es) - LoadingOf(es)|
      modifies this
      ensures e.Fine? ==> Halfway(es, good, i, |es[i].desc.deps|, entries)
      ensures Same(Flag(es, i, true), entries) && Sound(entries)
      ensures Grew(GraphOf(es), good, LoadedOf(es), LoadingOf(es) + {es[i].desc.name}, LoadedOf(entries), es[i].desc.name)
      ensures !e.Fine? ==>
                exists k :: 0 <= k < |es[i].desc.deps| &&
                            !Loadable(GraphOf(es), good, LoadedOf(es), LoadingOf(es) + {es[i].desc.name}, es[i].desc.deps[k])
      ensures !e.AlreadyLoaded?
      decreases |NamesOf(es) - LoadingOf(es)|, 0
    {
      hide Sound, NamesOf, LoadedOf, LoadingOf, Served, Halfway, GraphOf, Loadable, Grew, Same, Distinct;
      HalfwayFacts(es, good, i, 0, entries);
      FlagFacts(es, i, true);
      var deps := entries[i].desc.deps;
      var k := 0;
      while k < |deps|
        invariant 0 <= k <= |deps| && Halfway(es, good, i, k, entries)
      {
        HalfwayFacts(es, good, i, k, entries);
        ghost var fs := entries;
        var err := Load(deps[k], good);
        HalfwayStep(es, good, i, k, fs, entries, Succeeded(err));
        if err != Fine && err != AlreadyLoaded {
          return err;
        }
        k := k + 1;
      }
      HalfwayGrew(es, good, i, k, entries);
      e := Fine;
    }

    /** Asking for a loaded, registered or absent driver is answered as the registry stands; nothing is left flagged. */
    method LoadOne(name: Name, good: set<Name>) returns (e: Err)
      requires Valid()
      modifies this
      ensures Valid() && GraphOf(entries) == old(GraphOf(entries))
      ensures Same(old(entries), entries) && old(LoadedOf(entries)) <= LoadedOf(entries)
      ensures Succeeded(e) <==> Loadable(GraphOf(entries), good, old(LoadedOf(entries)), {}, name)
      ensures e.Fine? || e.AlreadyLoaded? <==> Loadable(GraphOf(entries), good, old(LoadedOf(entries)), {}, name)
      ensures Succeeded(e) ==> name in LoadedOf(entries)
      ensures AllLoadable(GraphOf(entries), good, old(LoadedOf(entries)), {}, LoadedOf(entries))
      ensures forall y :: y in LoadedOf(entries) && y !in old(LoadedOf(entries)) ==> Needed(GraphOf(entries), name, y)
    {
      hide Sound, NamesOf, LoadedOf, LoadingOf, Served, GraphOf, Loadable, AllLoadable, Needed;
      ghost var es := entries;
      e := Load(name, good);
      SoundDistinct(es);
      ServedFacts(es, good, name, entries, Succeeded(e));
      IdleSame(es, entries);
    }

    /** Whatever the order of registration, a stage loads exactly the drivers of the stage that are loadable. */
    method LoadStage(stage: Stage, good: set<Name>)
      requires Valid()
      modifies this
      ensures Valid() && GraphOf(entries) == old(GraphOf(entries)) && Same(old(entries), entries)
      ensures old(LoadedOf(entries)) <= LoadedOf(entries)
      ensures AllLoadable(GraphOf(entries), good, old(LoadedOf(entries)), {}, LoadedOf(entries))
      ensures forall i :: 0 <= i < |entries| && entries[i].desc.stage == stage ==>
                (entries[i].loaded <==>
                 Loadable(GraphOf(entries), good, old(LoadedOf(entries)), {}, entries[i].desc.name))
    {
      hide Sound, NamesOf, LoadedOf, LoadingOf, GraphOf, Loadable, AllLoadable, Needed;
      ghost var g, base := GraphOf(entries), LoadedOf(entries);
      BaseLoadable(g, good, base, {});
      var i := 0;
      while i < |entries|
        invariant 0 <= i <= |entries| && Valid() && Same(old(entries), entries) && GraphOf(entries) == g
        invariant base <= LoadedOf(entries) && AllLoadable(g, good, base, {}, LoadedOf(entries))
        invariant forall j :: 0 <= j < i && entries[j].desc.stage == stage ==>
                    (Loadable(g, good, base, {}, entries[j].desc.name) ==> entries[j].desc.name in LoadedOf(entries))
        decreases |entries| - i
      {
        if entries[i].desc.stage == stage {
          ghost var mid := LoadedOf(entries);
          var e := LoadOne(entries[i].desc.name, good);
          SameLoadable(g, good, base, mid, {}, entries[i].desc.name);
          MoreLoadable(g, good, base, mid, LoadedOf(entries));
        }
        i := i + 1;
      }
      SoundDistinct(entries);
      forall j | 0 <= j < |entries| && entries[j].desc.stage == stage
        ensures entries[j].loaded <==> Loadable(g, good, base, {}, entries[j].desc.name)
      {
        EntryFacts(entries, j);
        AllAt(g, good, base, LoadedOf(entries), entries[j].desc.name);
      }
    }

    /** A name already registered is accepted and changes nothing; a new driver needs a name and a free entry. */
    method Add(d: Desc) returns (e: Err)
      requires Valid()
      modifies this
      ensures Valid() && LoadedOf(entries) == old(LoadedOf(entries))
      ensures e == if d.name == "" then InitFailed
                   else if d.name in old(NamesOf(entries)) || old(|entries|) < 64 then Fine else InitFailed
      ensures if e.Fine? && d.name !in old(NamesOf(entries)) then GraphOf(entries) == old(GraphOf(entries))[d.name := d]
              else entries == old(entries)
    {
      hide Sound, NamesOf, LoadedOf, GraphOf, Distinct;
      if d.name == "" { return InitFailed; }
      var i := Find(d.name);
      if i >= 0 { return Fine; }
      if |entries| >= REGISTRY_MAX { return InitFailed; }
      SoundDistinct(entries);
      ghost var es := entries;
      AddFacts(es, d);
      entries := entries + [Entry(d, false, false)];
      AgreeNew(es, d);
      SoundOther(es, entries);
      e := Fine;
    }

    /** Only a driver that is not loaded can be dropped, and nothing loaded ever loses a dependency that way. */
    method Remove(name: Name) returns (e: Err)
      requires Valid()
      modifies this
      ensures Valid() && LoadedOf(entries) == old(LoadedOf(entries))
      ensures e == if name !in old(NamesOf(entries)) then NotFound
                   else if name in old(LoadedOf(entries)) then Busy else Fine
      ensures if e.Fine? then GraphOf(entries) == old(GraphOf(entries)) - {name} else entries == old(entries)
    {
      hide Sound, NamesOf, LoadedOf, GraphOf, Distinct;
      var i := Find(name);
      SoundDistinct(entries);
      Members(entries);
      if i < 0 { return NotFound; }
      EntryFacts(entries, i);
      if entries[i].loaded { return Busy; }
      ghost var es := entries;
      DropFacts(es, i);
      entries := entries[..i] + entries[i + 1..];
      assert entries == Drop(es, i);
      AgreeGone(es, i);
      SoundOther(es, entries);
      e := Fine;
    }

    method DependedOn(i: nat) returns (yes: bool)
      requires i < |entries| && Distinct(entries)
      ensures yes <==> !Unneeded(entries, entries[i].desc.name)
    {
      var name, k := entries[i].desc.name, 0;
      while k < |entries|
        invariant 0 <= k <= |entries|
        invariant forall j :: 0 <= j < k && j != i && entries[j].loaded ==> name !in entries[j].desc.deps
      {
        if k != i && entries[k].loaded && name in entries[k].desc.deps {
          return true;
        }
        k := k + 1;
      }
      yes := false;
    }

    /** A loaded driver goes only when no other loaded driver depends on it, it is idle and it can unload. */
    method Unload(name: Name, busy: bool, unloads: bool) returns (e: Err)
      requires Valid()
      modifies this
      ensures Valid() && GraphOf(entries) == old(GraphOf(entries))
      ensures name !in old(NamesOf(entries)) ==> e.NotFound?
      ensures name in old(NamesOf(entries)) && name !in old(LoadedOf(entries)) ==> e.NotLoaded?
      ensures e.Dependency? <==> name in old(LoadedOf(entries)) && !old(Unneeded(entries, name))
      ensures e.Dependency? ==> exists i :: 0 <= i < old(|entries|) && old(entries)[i].loaded && old(entries)[i].desc.name != name && name in old(entries)[i].desc.deps
      ensures e.Fine? ==> forall i :: 0 <= i < old(|entries|) && old(entries)[i].loaded && old(entries)[i].desc.name != name ==> name !in old(entries)[i].desc.deps
      ensures e.Fine? <==> name in old(LoadedOf(entries)) && old(Unneeded(entries, name)) && !busy && unloads
                           && old(GraphOf(entries))[name].hasUnload
      ensures LoadedOf(entries) == if e.Fine? then old(LoadedOf(entries)) - {name} else old(LoadedOf(entries))
    {
      hide Sound, NamesOf, LoadedOf, GraphOf, Distinct;
      var i := Find(name);
      SoundDistinct(entries);
      Members(entries);
      if i < 0 { return NotFound; }
      EntryFacts(entries, i);
      if !entries[i].loaded { return NotLoaded; }
      var needed := DependedOn(i);
      if needed { return Dependency; }
      if busy { return Busy; }
      if !entries[i].desc.hasUnload { return Unsupported; }
      if !unloads { return InitFailed; }
      UnloadKeeps(entries, i);
      MarkFacts(entries, i, false);
      IdleSame(entries, Mark(entries, i, false));
      entries := Mark(entries, i, false);
      e := Fine;
    }

    method Step(op: Op)
      requires Valid()
      modifies this
      ensures Valid() && Does(old(entries), op, entries)
    {
      hide Sound, NamesOf, LoadedOf, GraphOf, Loadable, Needed, AllLoadable, Same, Unneeded;
      Members(entries);
      match op
      case Register(d) => var e := Add(d);
      case Unregister(x) => var e := Remove(x);
      case Load(x, good) =>
        var e := LoadOne(x, good);
        AllAt(GraphOf(entries), good, LoadedOf(old(entries)), LoadedOf(entries), x);
      case Unload(x, busy, unloads) => var e := Unload(x, busy, unloads);
      case LoadStage(stage, good) => LoadStage(stage, good);
    }

    /** Each operation of any run does what it says, and after each of them every dependency of a loaded driver
        is loaded, the loaded drivers form no cycle, and no driver is left flagged as loading. */
    method Run(ops: seq<Op>) returns (ghost trace: seq<Entries>)
      requires Valid()
      modifies this
      ensures Valid() && |trace| == |ops| + 1 && trace[0] == old(entries) && trace[|ops|] == entries
      ensures forall k :: 0 <= k < |ops| ==> Does(trace[k], ops[k], trace[k + 1])
      ensures forall k :: 0 <= k < |trace| ==> Orderly(trace[k])
    {
      hide Does, Orderly;
      trace := [entries];
      OrderlyNow(entries);
      var n := 0;
      while n < |ops|
        invariant 0 <= n <= |ops| && Valid() && |trace| == n + 1 && trace[0] == old(entries) && trace[n] == entries
        invariant forall k :: 0 <= k < n ==> Does(trace[k], ops[k], trace[k + 1])
        invariant forall k :: 0 <= k <= n ==> Orderly(trace[k])
      {
        Step(ops[n]);
        OrderlyNow(entries);
        trace := trace + [entries];
        n := n + 1;
      }
    }
  }

  ghost predicate Orderly(es: Entries) {
    Closed(GraphOf(es), LoadedOf(es)) && Acyclic(GraphOf(es), LoadedOf(es)) && Idle(es)
  }

  lemma OrderlyNow(es: Entries)
    requires Sound(es) && Idle(es)
    ensures Orderly(es)
  {
    hide Closed, Acyclic, GraphOf, LoadedOf;
  }

  /** What one operation does to the registry. */
  ghost predicate Does(es: Entries, op: Op, fs: Entries) {
    var g, h, was, now := GraphOf(es), GraphOf(fs), LoadedOf(es), LoadedOf(fs);
    match op
    case Register(d) =>
      now == was && if d.name != "" && d.name !in NamesOf(es) && |es| < REGISTRY_MAX then h == g[d.name := d] else fs == es
    case Unregister(x) =>
      now == was && if x in NamesOf(es) && x !in was then h == g - {x} else fs == es
    case Load(x, good) =>
      && h == g && was <= now && AllLoadable(g, good, was, {}, now)
      && (x in now <==> Loadable(g, good, was, {}, x))
      && forall y :: y in now && y !in was ==> Needed(g, x, y)
    case Unload(x, busy, unloads) =>
      h == g && now == if x in was && Unneeded(es, x) && !busy && unloads && x in g && g[x].hasUnload then was - {x} else was
    case LoadStage(stage, good) =>
      && h == g && was <= now && AllLoadable(g, good, was, {}, now) && Same(es, fs)
      && forall i :: 0 <= i < |fs| && fs[i].desc.stage == stage ==> (fs[i].loaded <==> Loadable(g, good, was, {}, fs[i].desc.name))
  }

  lemma SameLength(es: Entries, fs: Entries)
    requires Same(es, fs)
    ensures |es| == |fs|
  {
  }

  lemma HalfwayGrew(es: Entries, good: set<Name>, i: nat, k: nat, fs: Entries)
    requires i < |es| && Halfway(es, good, i, k, fs)
    ensures Same(Flag(es, i, true), fs) && Sound(fs)
    ensures Grew(GraphOf(es), good, LoadedOf(es), LoadingOf(es) + {es[i].desc.name}, LoadedOf(fs), es[i].desc.name)
  {
  }

  lemma MoreLoadable(g: Graph, good: set<Name>, base: set<Name>, mid: set<Name>, now: set<Name>)
    requires base <= mid && AllLoadable(g, good, base, {}, mid) && AllLoadable(g, good, mid, {}, now)
    ensures AllLoadable(g, good, base, {}, now)
  {
    hide Loadable;
    forall x | x in now
      ensures Loadable(g, good, base, {}, x)
    {
      SameLoadable(g, good, base, mid, {}, x);
    }
  }

  lemma AllAt(g: Graph, good: set<Name>, base: set<Name>, now: set<Name>, x: Name)
    requires AllLoadable(g, good, base, {}, now)
    ensures x in now ==> Loadable(g, good, base, {}, x)
  {
  }

  lemma AgreeNew(es: Entries, d: Desc)
    requires Distinct(es) && d.name !in NamesOf(es)
    ensures Agree(GraphOf(es), GraphOf(es)[d.name := d], LoadedOf(es))
  {
    Members(es);
  }

  lemma AgreeGone(es: Entries, i: nat)
    requires Distinct(es) && i < |es| && !es[i].loaded
    ensures Agree(GraphOf(es), GraphOf(es) - {es[i].desc.name}, LoadedOf(es))
  {
    Members(es);
    EntryFacts(es, i);
  }
}
