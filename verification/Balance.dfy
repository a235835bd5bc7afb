/**
 * Moving threads between processors: rebalancing, rescuing stranded threads and stealing.  No
 * queued thread is doubled, only those without a home or turned away by a full queue are lost,
 * and pushing work away never overshoots.
 */
module Balance {
  import Sets
  import opened HeapOrder
  import opened ThreadHeap
  import opened RunQueues

  /** The threads that wait in some queue. */
  function OnQueue(threads: Threads): (s: set<nat>)
    ensures forall t :: t in s <==> t in threads && threads[t].onRq
  {
    set t | t in threads && threads[t].onRq
  }

  /** Every queue has room for `k` more threads. */
  ghost predicate Roomy(contents: seq<Keys>, capacity: nat, k: nat) {
    forall c :: 0 <= c < |contents| ==> |contents[c]| + k <= capacity
  }

  /** Only virtual runtimes, places and queue flags differ. */
  ghost predicate SameThreads(a: Threads, b: Threads) {
    && a.Keys == b.Keys
    && forall t :: t in a ==> a[t].mask == b[t].mask && a[t].ready == b[t].ready && a[t].running == b[t].running && a[t].pid == b[t].pid
  }

  lemma SizeWith(contents: seq<Keys>, c: nat, t: nat, key: Key)
    requires c < |contents| && t !in contents[c]
    ensures |WithThread(contents, c, t, key)[c]| == |contents[c]| + 1
  {
    var k: Keys := contents[c][t := key];
    assert k.Keys == contents[c].Keys + {t};
    KeysSize(k);
    KeysSize(contents[c]);
  }

  lemma SizeWithout(contents: seq<Keys>, c: nat, t: nat)
    requires c < |contents| && t in contents[c]
    ensures |WithoutThread(contents, c, t)[c]| == |contents[c]| - 1
  {
    var k: Keys := contents[c] - {t};
    assert k.Keys == contents[c].Keys - {t};
    KeysSize(k);
    KeysSize(contents[c]);
  }

  /** A thread taken from one queue and, if it was `queued`, put into another. */
  lemma MovedSizes(contents: seq<Keys>, source: nat, target: nat, t: nat, key: Key, queued: bool)
    requires source < |contents| && target < |contents| && source != target && t in contents[source] && t !in contents[target]
    ensures var less := WithoutThread(contents, source, t);
            var n := if queued then WithThread(less, target, t, key) else less;
            |n[source]| == |contents[source]| - 1 && |n[target]| == |contents[target]| + if queued then 1 else 0
  {
    SizeWithout(contents, source, t);
    SizeWith(WithoutThread(contents, source, t), target, t, key);
  }

  /** Thread `t`, off the queues, is sent to processor `at`; it is queued there or it stays off. */
  ghost predicate Sent(before: Threads, after: Threads, t: nat, at: nat, queued: bool) {
    && t in before && after.Keys == before.Keys && (forall u :: u in before && u != t ==> after[u] == before[u])
    && after[t].vruntime >= before[t].vruntime
    && after[t] == before[t].(vruntime := after[t].vruntime, onRq := queued, lastCpu := at)
  }

  /** Taking a thread from one queue and sending it to another changes the threads in nothing but that. */
  lemma MovedThreads(contents: seq<Keys>, threads: Threads, source: nat, t: nat, after: Threads, at: nat, queued: bool)
    requires Filed(contents, threads) && source < |contents| && t in contents[source]
    requires Sent(threads[t := threads[t].(onRq := false)], after, t, at, queued)
    ensures Sent(threads, after, t, at, queued) && SameThreads(threads, after) && t in OnQueue(threads)
    ensures OnQueue(after) == if queued then OnQueue(threads) else OnQueue(threads) - {t}
  {
  }

  lemma OnlyThere(contents: seq<Keys>, threads: Threads, source: nat, t: nat)
    requires Filed(contents, threads) && source < |contents| && t in contents[source]
    ensures t in threads && threads[t].onRq && !threads[t].running && forall c :: 0 <= c < |contents| && c != source ==> t !in contents[c]
  {
  }

  /** Some thread of the queue is wanted: one processor `c` may run, or, for `unfit`, one it may not. */
  ghost predicate Some(cpus: Cpus, keys: Keys, threads: Threads, c: nat, unfit: bool)
    reads cpus`online
  {
    exists u :: u in keys && u in threads && cpus.Wanted(threads[u], c, unfit)
  }

  /** Has not run more, and among equals does not have the higher number. */
  predicate NotWorse(a: Thread, b: Thread) {
    a.vruntime <= b.vruntime && (a.vruntime == b.vruntime ==> a.pid <= b.pid)
  }

  /** Among the wanted threads of the queue, none has run more than `t`. */
  ghost predicate Worst(cpus: Cpus, keys: Keys, threads: Threads, c: nat, unfit: bool, t: nat)
    reads cpus`online
  {
    && t in keys && t in threads && cpus.Wanted(threads[t], c, unfit)
    && forall u :: u in keys && u in threads && cpus.Wanted(threads[u], c, unfit) ==> NotWorse(threads[u], threads[t])
  }

  /** Queue `source` only lost threads, `target` only got some, and no other queue changed. */
  ghost predicate Flowed(before: seq<Keys>, after: seq<Keys>, source: nat, target: nat) {
    && |after| == |before| && source < |before| && target < |before|
    && (forall c :: 0 <= c < |before| && c != source && c != target ==> after[c] == before[c])
    && after[source].Keys <= before[source].Keys && (source != target ==> before[target].Keys <= after[target].Keys)
  }

  lemma FlowedOne(contents: seq<Keys>, source: nat, target: nat, t: nat, key: Key)
    requires source < |contents| && target < |contents| && source != target
    ensures Flowed(contents, WithThread(WithoutThread(contents, source, t), target, t, key), source, target)
    ensures Flowed(contents, WithoutThread(contents, source, t), source, target)
  {
  }

  lemma FlowedNone(contents: seq<Keys>, source: nat, target: nat)
    requires source < |contents| && target < |contents|
    ensures Flowed(contents, contents, source, target)
  {
  }

  lemma FlowedChain(a: seq<Keys>, b: seq<Keys>, c: seq<Keys>, source: nat, target: nat)
    requires Flowed(a, b, source, target) && Flowed(b, c, source, target)
    ensures Flowed(a, c, source, target)
  {
  }

  /** Takes the worst of the wanted threads off its queue. */
  method Take(cpus: Cpus, source: nat, c: nat, unfit: bool) returns (found: bool, t: nat)
    requires cpus.Valid() && source < |cpus.queues|
    modifies cpus`contents, cpus`threads, cpus`floors, cpus.queues, set q | q in cpus.queues :: q.slots
    ensures cpus.Valid() && Rose(old(cpus.floors), cpus.floors) && |cpus.contents| == old(|cpus.contents|) == |cpus.queues|
    ensures found <==> Some(cpus, old(cpus.contents)[source], old(cpus.threads), c, unfit)
    ensures found ==> t in old(cpus.threads) && Worst(cpus, old(cpus.contents)[source], old(cpus.threads), c, unfit, t)
    ensures found ==> cpus.contents == WithoutThread(old(cpus.contents), source, t)
    ensures found ==> cpus.threads == old(cpus.threads)[t := old(cpus.threads)[t].(onRq := false)]
    ensures !found ==> cpus.contents == old(cpus.contents) && cpus.threads == old(cpus.threads)
  {
    hide Filed, Floors, WithoutThread, Cpus.Wanted, Cpus.Good;
    cpus.Lengths();
    found, t := cpus.TakeWorst(source, c, unfit);
    cpus.Lengths();
  }

  lemma WorstFacts(cpus: Cpus, keys: Keys, threads: Threads, c: nat, unfit: bool, t: nat)
    requires Worst(cpus, keys, threads, c, unfit, t)
    ensures t in keys && t in threads && cpus.Wanted(threads[t], c, unfit)
    ensures threads[t].ready && (c < |cpus.online| && cpus.online[c] && !unfit ==> cpus.CanRun(threads[t], c))
    ensures forall u :: u in keys && u in threads && cpus.Wanted(threads[u], c, unfit) ==>
              threads[u].vruntime <= threads[t].vruntime && (threads[u].vruntime == threads[t].vruntime ==> threads[u].pid <= threads[t].pid)
  {
  }

  /** Sends a thread just taken off a queue to a processor that may run it. */
  method Post(cpus: Cpus, t: nat, target: nat) returns (queued: bool)
    requires cpus.Valid() && t in cpus.threads && !cpus.threads[t].onRq && cpus.threads[t].ready && !cpus.threads[t].running
    requires target < |cpus.queues| && cpus.CanRun(cpus.threads[t], target)
    modifies cpus`contents, cpus`threads, cpus`floors, cpus.queues, set q | q in cpus.queues :: q.slots
    ensures cpus.Valid() && Rose(old(cpus.floors), cpus.floors) && |cpus.contents| == old(|cpus.contents|) == |cpus.queues|
    ensures queued <==> |old(cpus.contents)[target]| < cpus.capacity
    ensures Sent(old(cpus.threads), cpus.threads, t, target, queued)
    ensures t in cpus.threads
    ensures cpus.contents == if queued then WithThread(old(cpus.contents), target, t, KeyOf(cpus.threads[t])) else old(cpus.contents)
  {
    hide Filed, Floors, WithThread, Cpus.Good, Cpus.CanRun;
    cpus.Lengths();
    queued := cpus.Send(t, target);
    cpus.Lengths();
  }

  /**
   * Gives the thread that has run most, of those the other processor may run, to that processor.  A
   * full queue turns it away, and then it is off every queue.
   */
  method MoveWorst(cpus: Cpus, source: nat, target: nat) returns (moved: bool, queued: bool, ghost t: nat)
    requires cpus.Valid() && source < |cpus.queues| && target < |cpus.queues| && source != target && cpus.online[target]
    modifies cpus`contents, cpus`threads, cpus`floors, cpus.queues, set q | q in cpus.queues :: q.slots
    ensures cpus.Valid() && Rose(old(cpus.floors), cpus.floors) && SameThreads(old(cpus.threads), cpus.threads)
    ensures |cpus.contents| == |old(cpus.contents)| == |cpus.queues|
    ensures moved <==> Some(cpus, old(cpus.contents)[source], old(cpus.threads), target, false)
    ensures moved ==> Worst(cpus, old(cpus.contents)[source], old(cpus.threads), target, false, t)
    ensures moved ==> t in old(cpus.threads) && forall u :: u in old(cpus.contents)[source] && u in old(cpus.threads) && cpus.Wanted(old(cpus.threads)[u], target, false) ==>
              old(cpus.threads)[u].vruntime <= old(cpus.threads)[t].vruntime
              && (old(cpus.threads)[u].vruntime == old(cpus.threads)[t].vruntime ==> old(cpus.threads)[u].pid <= old(cpus.threads)[t].pid)
    ensures queued <==> moved && |old(cpus.contents)[target]| < cpus.capacity
    ensures moved ==> t in OnQueue(old(cpus.threads)) && Sent(old(cpus.threads), cpus.threads, t, target, queued)
    ensures OnQueue(cpus.threads) == if moved && !queued then OnQueue(old(cpus.threads)) - {t} else OnQueue(old(cpus.threads))
    ensures |cpus.contents[source]| == |old(cpus.contents)[source]| - if moved then 1 else 0
    ensures |cpus.contents[target]| == |old(cpus.contents)[target]| + if queued then 1 else 0
    ensures !moved ==> cpus.contents == old(cpus.contents) && cpus.threads == old(cpus.threads)
    ensures Flowed(old(cpus.contents), cpus.contents, source, target)
  {
    hide Filed, Floors, WithThread, WithoutThread, SameThreads, OnQueue, Sent, Flowed, Worst, Some, Cpus.Good, Cpus.CanRun;
    ghost var contents, threads := cpus.contents, cpus.threads;
    SameIsSame(threads);
    cpus.Lengths();
    queued := false;
    var x;
    moved, x := Take(cpus, source, target, false);
    t := x;
    FlowedNone(contents, source, target);
    if !moved {
      return;
    }
    WorstFacts(cpus, contents[source], threads, target, false, x);
    OnlyThere(contents, threads, source, x);
    cpus.SameMask(threads[x], cpus.threads[x], target);
    OthersKeep(contents, source, target, x);
    queued := Post(cpus, x, target);
    MovedThreads(contents, threads, source, x, cpus.threads, target, queued);
    FlowedOne(contents, source, target, x, KeyOf(cpus.threads[x]));
    MovedSizes(contents, source, target, x, KeyOf(cpus.threads[x]), queued);
  }

  /** Threads that fit into a queue of `n` of `capacity` out of `moved`. */
  function Fitting(n: nat, capacity: nat, moved: nat): (k: nat)
    requires n <= capacity
    ensures k <= moved && n + k <= capacity && (k < moved ==> n + k == capacity)
  {
    if n + moved <= capacity then moved else capacity - n
  }

  /**
   * Takes up to `most` threads from one processor for another; it stops early only when none is left to
   * give.  Those that fit are queued there, and exactly the others are lost.
   */
  method Push(cpus: Cpus, source: nat, target: nat, most: nat) returns (moved: nat, ghost lost: set<nat>)
    requires cpus.Valid() && source < |cpus.queues| && target < |cpus.queues| && source != target && cpus.online[target]
    modifies cpus`contents, cpus`threads, cpus`floors, cpus.queues, set q | q in cpus.queues :: q.slots
    ensures cpus.Valid() && Rose(old(cpus.floors), cpus.floors) && SameThreads(old(cpus.threads), cpus.threads)
    ensures |cpus.contents| == |old(cpus.contents)| == |cpus.queues|
    ensures lost <= OnQueue(old(cpus.threads)) && OnQueue(cpus.threads) == OnQueue(old(cpus.threads)) - lost && moved <= most
    ensures |old(cpus.contents)[target]| <= cpus.capacity && |lost| == moved - Fitting(|old(cpus.contents)[target]|, cpus.capacity, moved)
    ensures |cpus.contents[source]| + moved == |old(cpus.contents)[source]|
    ensures |cpus.contents[target]| == |old(cpus.contents)[target]| + Fitting(|old(cpus.contents)[target]|, cpus.capacity, moved)
    ensures moved < most ==> !Some(cpus, cpus.contents[source], cpus.threads, target, false)
    ensures Flowed(old(cpus.contents), cpus.contents, source, target)
  {
    hide Filed, Floors, SameThreads, OnQueue, Sent, Worst, Some, Flowed, WithThread, WithoutThread, Cpus.Good;
    moved, lost := 0, {};
    cpus.Lengths();
    cpus.Bounded(target);
    SameIsSame(cpus.threads);
    FlowedNone(cpus.contents, source, target);
    ghost var n := |cpus.contents[target]|;
    while moved < most
      invariant cpus.Valid() && Rose(old(cpus.floors), cpus.floors) && SameThreads(old(cpus.threads), cpus.threads)
      invariant |cpus.contents| == |old(cpus.contents)| == |cpus.queues| && moved <= most
      invariant lost <= OnQueue(old(cpus.threads)) && OnQueue(cpus.threads) == OnQueue(old(cpus.threads)) - lost
      invariant |lost| == moved - Fitting(n, cpus.capacity, moved)
      invariant |cpus.contents[source]| + moved == |old(cpus.contents)[source]|
      invariant |cpus.contents[target]| == n + Fitting(n, cpus.capacity, moved)
      invariant Flowed(old(cpus.contents), cpus.contents, source, target)
    {
      ghost var threads, contents := cpus.threads, cpus.contents;
      ghost var t;
      var ok, queued;
      ok, queued, t := MoveWorst(cpus, source, target);
      SameChain(old(cpus.threads), threads, cpus.threads);
      FlowedChain(old(cpus.contents), contents, cpus.contents, source, target);
      if !ok {
        return;
      }
      if !queued { lost := lost + {t}; }
      moved := moved + 1;
    }
  }

  lemma SameChain(a: Threads, b: Threads, c: Threads)
    requires SameThreads(a, b) && SameThreads(b, c)
    ensures SameThreads(a, c)
  {
  }

  /** Of the processors that may run the thread, `at` has the least load. */
  ghost predicate BestHome(cpus: Cpus, th: Thread, at: nat)
    requires |cpus.busy| == |cpus.queues|
    reads cpus, cpus.queues
  {
    && at < |cpus.queues| && cpus.CanRun(th, at)
    && forall c: nat :: cpus.CanRun(th, c) ==> c < |cpus.queues| && cpus.Load(at) <= cpus.Load(c)
  }

  /** The best home for a thread that processor `cpu` may not run; `cpu` itself exactly when there is none. */
  method PickHome(cpus: Cpus, th: Thread, cpu: nat) returns (target: nat)
    requires cpus.Valid() && cpu < |cpus.queues| == |cpus.busy| && !cpus.CanRun(th, cpu)
    ensures target < |cpus.queues| && (target != cpu <==> cpus.RunsSomewhere(th))
    ensures target != cpu ==> cpus.CanRun(th, target) && BestHome(cpus, th, target)
  {
    hide Filed, Floors, Cpus.CanRun, Cpus.Good;
    cpus.Lengths();
    target := cpus.PickCpu(th, cpu);
  }

  /**
   * Sends a thread that its processor may not run to the least loaded one that may.  It stays off the
   * queues exactly when there is none, or when that one is full.
   */
  method Rehome(cpus: Cpus, x: nat, cpu: nat) returns (kept: bool, at: nat)
    requires cpus.Valid() && cpu < |cpus.queues| && x in cpus.threads
    requires !cpus.threads[x].onRq && cpus.threads[x].ready && !cpus.threads[x].running && !cpus.CanRun(cpus.threads[x], cpu)
    modifies cpus`contents, cpus`threads, cpus`floors, cpus.queues, set q | q in cpus.queues :: q.slots
    ensures cpus.Valid() && Rose(old(cpus.floors), cpus.floors) && |cpus.contents| == old(|cpus.contents|) == |cpus.queues|
    ensures at < |cpus.queues| <==> cpus.RunsSomewhere(old(cpus.threads)[x])
    ensures at < |cpus.queues| ==> at != cpu && old(|cpus.busy| == |cpus.queues| && BestHome(cpus, cpus.threads[x], at))
    ensures kept <==> at < |cpus.queues| && |old(cpus.contents)[at]| < cpus.capacity
    ensures x in cpus.threads && (at < |cpus.queues| ==> Sent(old(cpus.threads), cpus.threads, x, at, kept))
    ensures at >= |cpus.queues| ==> cpus.threads == old(cpus.threads)
    ensures cpus.contents == if kept then WithThread(old(cpus.contents), at, x, KeyOf(cpus.threads[x])) else old(cpus.contents)
  {
    hide Filed, Floors, WithThread, WithoutThread, Cpus.CanRun, Cpus.Good, Sent, BestHome, Cpus.RunsSomewhere;
    cpus.Lengths();
    var target := PickHome(cpus, cpus.threads[x], cpu);
    at := |cpus.queues|;
    if target == cpu {
      kept, at := cpus.Enqueue(x, cpu);
      cpus.Lengths();
      return;
    }
    at := target;
    kept := Post(cpus, x, target);
  }

  /**
   * Takes from a processor the thread that has run most among those it may not run, and sends it to the
   * least loaded processor that may.  The thread is lost exactly when there is none or that one is full.
   */
  method MoveStranded(cpus: Cpus, cpu: nat) returns (took: bool, kept: bool, at: nat, ghost t: nat)
    requires cpus.Valid() && cpu < |cpus.queues|
    modifies cpus`contents, cpus`threads, cpus`floors, cpus.queues, set q | q in cpus.queues :: q.slots
    ensures cpus.Valid() && Rose(old(cpus.floors), cpus.floors) && SameThreads(old(cpus.threads), cpus.threads)
    ensures |cpus.contents| == |old(cpus.contents)| == |cpus.queues|
    ensures took <==> Some(cpus, old(cpus.contents)[cpu], old(cpus.threads), cpu, true)
    ensures took ==> Worst(cpus, old(cpus.contents)[cpu], old(cpus.threads), cpu, true, t) && t in OnQueue(old(cpus.threads))
    ensures took ==> t in old(cpus.threads) && (at < |cpus.queues| <==> cpus.RunsSomewhere(old(cpus.threads)[t]))
    ensures took && at < |cpus.queues| ==> at != cpu && cpus.CanRun(old(cpus.threads)[t], at)
    ensures took && at < |cpus.queues| ==>
              forall c: nat :: cpus.CanRun(old(cpus.threads)[t], c) ==> LeastLoad(old(cpus.contents), old(cpus.busy), at, c)
    ensures kept <==> took && at < |cpus.queues| && |old(cpus.contents)[at]| < cpus.capacity
    ensures took && at < |cpus.queues| ==> Sent(old(cpus.threads), cpus.threads, t, at, kept)
    ensures OnQueue(cpus.threads) == if took && !kept then OnQueue(old(cpus.threads)) - {t} else OnQueue(old(cpus.threads))
    ensures cpus.contents[cpu].Keys <= old(cpus.contents)[cpu].Keys
    ensures forall c :: 0 <= c < |cpus.contents| ==> |cpus.contents[c]| <= |old(cpus.contents)[c]| + if kept then 1 else 0
    ensures Kept(old(cpus.contents), cpus.contents, cpu)
    ensures !took ==> cpus.contents == old(cpus.contents) && cpus.threads == old(cpus.threads)
  {
    hide Filed, Floors, WithThread, WithoutThread, SameThreads, OnQueue, Cpus.CanRun, Cpus.Good, Sent, Worst, Some, BestHome, LeastLoad, Kept;
    ghost var contents, threads := cpus.contents, cpus.threads;
    KeptSame(contents, cpu);
    kept, at := false, |cpus.queues|;
    SameIsSame(threads);
    cpus.Lengths();
    var x;
    took, x := Take(cpus, cpu, cpu, true);
    t := x;
    if !took {
      return;
    }
    WorstFacts(cpus, contents[cpu], threads, cpu, true, x);
    OnlyThere(contents, threads, cpu, x);
    TakenThread(contents, threads, cpu, x);
    NotHere(cpus, threads[x], cpu);
    MaskOnly(cpus, threads[x], cpus.threads[x]);
    HomeIsBest(cpus, contents, cpu, x);
    kept, at := Rehome(cpus, x, cpu);
    if at < |cpus.queues| {
      MovedThreads(contents, threads, cpu, x, cpus.threads, at, kept);
      OthersKeep(contents, cpu, at, x);
    }
    LittleMore(contents, cpu, x, at, KeyOf(cpus.threads[x]), kept);
  }

  /** Processor `at` has no more load than `c`. */
  ghost predicate LeastLoad(contents: seq<Keys>, busy: seq<bool>, at: nat, c: nat) {
    |contents| == |busy| && at < |contents| && c < |contents| && LoadOf(contents, busy, at) <= LoadOf(contents, busy, c)
  }

  /** With the thread gone from a processor that may not run it, the loads that matter are what they were. */
  lemma HomeIsBest(cpus: Cpus, contents: seq<Keys>, cpu: nat, t: nat)
    requires cpus.Good() && cpu < |contents| == |cpus.busy| == |cpus.queues| == |cpus.contents|
    requires cpus.contents == WithoutThread(contents, cpu, t) && t in cpus.threads && !cpus.CanRun(cpus.threads[t], cpu)
    ensures forall at: nat :: BestHome(cpus, cpus.threads[t], at) ==> cpus.CanRun(cpus.threads[t], at)
    ensures forall at: nat :: BestHome(cpus, cpus.threads[t], at) ==>
              forall c: nat :: cpus.CanRun(cpus.threads[t], c) ==> LeastLoad(contents, cpus.busy, at, c)
  {
    hide Cpus.Good, Cpus.CanRun;
    forall at: nat, c: nat | BestHome(cpus, cpus.threads[t], at) && cpus.CanRun(cpus.threads[t], c)
      ensures LeastLoad(contents, cpus.busy, at, c)
    {
      cpus.LoadIs(at);
      cpus.LoadIs(c);
    }
  }

  /** No queue but that of `cpu` got shorter. */
  ghost predicate Kept(before: seq<Keys>, after: seq<Keys>, cpu: nat) {
    |after| == |before| && forall c :: 0 <= c < |before| && c != cpu ==> |before[c]| <= |after[c]|
  }

  lemma KeptSame(contents: seq<Keys>, cpu: nat)
    ensures Kept(contents, contents, cpu)
  {
  }

  lemma LittleMore(contents: seq<Keys>, cpu: nat, t: nat, at: nat, key: Key, kept: bool)
    requires cpu < |contents| && t in contents[cpu] && (kept ==> at < |contents| && at != cpu)
    ensures var less := WithoutThread(contents, cpu, t);
            var n := if kept then WithThread(less, at, t, key) else less;
            && n[cpu].Keys <= contents[cpu].Keys && Kept(contents, n, cpu)
            && forall c :: 0 <= c < |n| ==> |n[c]| <= |contents[c]| + if kept then 1 else 0
  {
    SizeWithout(contents, cpu, t);
    if kept { MoreBy(WithoutThread(contents, cpu, t), at, t, key); }
  }

  lemma MoreBy(contents: seq<Keys>, c: nat, t: nat, key: Key)
    requires c < |contents|
    ensures |contents[c]| <= |WithThread(contents, c, t, key)[c]| <= |contents[c]| + 1
  {
    if t !in contents[c] {
      SizeWith(contents, c, t, key);
    } else {
      var k: Keys := contents[c][t := key];
      assert k.Keys == contents[c].Keys;
      KeysSize(k);
      KeysSize(contents[c]);
    }
  }

  lemma TakenThread(contents: seq<Keys>, threads: Threads, c: nat, t: nat)
    requires Filed(contents, threads) && c < |contents| && t in contents[c]
    ensures var off := threads[t := threads[t].(onRq := false)];
            OnQueue(off) == OnQueue(threads) - {t} && SameThreads(threads, off) && t in OnQueue(threads) && !off[t].running
  {
  }

  lemma NotHere(cpus: Cpus, th: Thread, cpu: nat)
    requires cpus.Wanted(th, cpu, true)
    ensures !cpus.CanRun(th, cpu)
  {
  }

  lemma MaskOnly(cpus: Cpus, a: Thread, b: Thread)
    requires a.mask == b.mask
    ensures forall c: nat :: cpus.CanRun(a, c) == cpus.CanRun(b, c)
    ensures cpus.RunsSomewhere(a) == cpus.RunsSomewhere(b)
  {
    forall c: nat
      ensures cpus.CanRun(a, c) == cpus.CanRun(b, c)
    {
      cpus.SameMask(a, b, c);
    }
  }

  const PUSH_BATCH: nat := 2
  const STEAL_BATCH: nat := 2

  /** Every queued thread may run on some processor that is online. */
  ghost predicate NoneHomeless(cpus: Cpus, threads: Threads)
    reads cpus`online
  {
    forall t :: t in OnQueue(threads) ==> t in threads && cpus.RunsSomewhere(threads[t])
  }

  lemma HomesKept(cpus: Cpus, a: Threads, b: Threads)
    requires SameThreads(a, b) && NoneHomeless(cpus, a) && OnQueue(b) <= OnQueue(a)
    ensures NoneHomeless(cpus, b)
  {
    hide Cpus.RunsSomewhere;
    forall t | t in OnQueue(b)
      ensures t in b && cpus.RunsSomewhere(b[t])
    {
      MaskOnly(cpus, a[t], b[t]);
    }
  }

  /** The least loaded processor that is online, if any. */
  method Idlest(cpus: Cpus) returns (found: bool, r: nat)
    requires cpus.Valid()
    ensures found ==> r < |cpus.queues| && cpus.online[r]
    ensures found ==> forall c :: 0 <= c < |cpus.queues| && cpus.online[c] ==> cpus.Load(r) <= cpus.Load(c)
    ensures !found ==> forall c :: 0 <= c < |cpus.queues| ==> !cpus.online[c]
  {
    hide Filed, Floors;
    found, r := false, 0;
    for c := 0 to |cpus.queues|
      invariant found ==> r < c && cpus.online[r] && forall d :: 0 <= d < c && cpus.online[d] ==> cpus.Load(r) <= cpus.Load(d)
      invariant !found ==> forall d :: 0 <= d < c ==> !cpus.online[d]
    {
      if cpus.online[c] && (!found || cpus.Load(c) < cpus.Load(r)) {
        found, r := true, c;
      }
    }
  }

  /** A thread queued on processor 0 is told to run on processor 1 only, and processor 1 goes offline. */
  method Strand() returns (cpus: Cpus)
    ensures fresh(cpus) && fresh(cpus.queues) && fresh(set q | q in cpus.queues :: q.slots) && cpus.Valid()
    ensures |cpus.contents| == |cpus.queues| == 2 && 7 in cpus.contents[0] && cpus.threads.Keys == {7} && OnQueue(cpus.threads) == {7}
    ensures cpus.Wanted(cpus.threads[7], 0, true) && !cpus.RunsSomewhere(cpus.threads[7])
  {
    hide Filed, Floors, Cpus.Good, IndexedHeap.Valid;
    cpus := new Cpus([true, true], 4);
    cpus.Lengths();
    cpus.Register(7, Thread(0, 0, 7, {}, true, false, false, 0));
    assert cpus.CanRun(cpus.threads[7], 0);
    var queued, at := cpus.Enqueue(7, 0);
    cpus.Lengths();
    cpus.SetMask(7, {1});
    cpus.SetOnline(1, false);
  }

  /** The rescue takes such a thread off its queue and finds no other place for it: a ready thread is lost. */
  method LosingRun() returns (cpus: Cpus)
    ensures fresh(cpus) && cpus.Valid() && cpus.threads.Keys == {7}
    ensures cpus.threads[7].ready && !cpus.threads[7].running && OnQueue(cpus.threads) == {}
  {
    hide Filed, Floors, Cpus.Good, Cpus.RunsSomewhere, LeastLoad, Sent;
    cpus := Strand();
    OnlyThere(cpus.contents, cpus.threads, 0, 7);
    var took, kept, home;
    ghost var t;
    took, kept, home, t := MoveStranded(cpus, 0);
  }

  /** All these threads wait on processor `cpu`, which may not run them. */
  ghost predicate Stranded(cpus: Cpus, contents: seq<Keys>, threads: Threads, cpu: nat, ts: set<nat>)
    reads cpus`online
  {
    cpu < |contents| && forall t :: t in ts ==> t in contents[cpu] && t in threads && cpus.Wanted(threads[t], cpu, true)
  }

  /** Each of these threads may run nowhere, or on a processor whose queue is full. */
  ghost predicate TurnedAway(cpus: Cpus, contents: seq<Keys>, threads: Threads, cpu: nat, ts: set<nat>)
    reads cpus`online
  {
    forall t :: t in ts ==> t in threads && (!cpus.RunsSomewhere(threads[t]) || NoRoom(cpus, contents, threads[t], cpu))
  }

  /** Another processor may run the thread, and its queue is full. */
  ghost predicate NoRoom(cpus: Cpus, contents: seq<Keys>, th: Thread, cpu: nat)
    reads cpus`online
  {
    exists c: nat :: c < |contents| && c != cpu && cpus.CanRun(th, c) && |contents[c]| >= cpus.capacity
  }

  lemma NoRoomStill(cpus: Cpus, before: seq<Keys>, after: seq<Keys>, th: Thread, cpu: nat)
    requires NoRoom(cpus, before, th, cpu) && Kept(before, after, cpu)
    ensures NoRoom(cpus, after, th, cpu)
  {
    hide Cpus.CanRun;
    var c: nat :| c < |before| && c != cpu && cpus.CanRun(th, c) && |before[c]| >= cpus.capacity;
    assert |after[c]| >= cpus.capacity;
  }

  /** No queue that was full gets room again but that of `cpu`. */
  lemma TurnedStill(cpus: Cpus, before: seq<Keys>, after: seq<Keys>, threads: Threads, cpu: nat, ts: set<nat>)
    requires TurnedAway(cpus, before, threads, cpu, ts) && Kept(before, after, cpu)
    ensures TurnedAway(cpus, after, threads, cpu, ts)
  {
    hide NoRoom, Cpus.RunsSomewhere, Kept;
    forall t | t in ts
      ensures t in threads && (!cpus.RunsSomewhere(threads[t]) || NoRoom(cpus, after, threads[t], cpu))
    {
      if NoRoom(cpus, before, threads[t], cpu) { NoRoomStill(cpus, before, after, threads[t], cpu); }
    }
  }

  lemma TurnedMore(cpus: Cpus, contents: seq<Keys>, threads0: Threads, threads: Threads, cpu: nat, ts: set<nat>, t: nat, at: nat)
    requires TurnedAway(cpus, contents, threads0, cpu, ts) && SameThreads(threads0, threads) && t in threads
    requires at < |contents| <==> cpus.RunsSomewhere(threads[t])
    requires at < |contents| ==> at != cpu && cpus.CanRun(threads[t], at) && |contents[at]| >= cpus.capacity
    ensures TurnedAway(cpus, contents, threads0, cpu, ts + {t})
  {
    hide Cpus.RunsSomewhere, Cpus.CanRun;
    MaskOnly(cpus, threads0[t], threads[t]);
    assert at < |contents| ==> NoRoom(cpus, contents, threads0[t], cpu);
    hide NoRoom;
  }

  /**
   * Sends stranded threads of one processor away, a few at a time: it stops early only when none is left
   * or one may run nowhere.  Only stranded threads can be lost, each because it may run nowhere or its home
   * is full, and none is when each has a home and the queues have room.
   */
  method RescueSome(cpus: Cpus, cpu: nat) returns (rescued: nat, ghost lost: set<nat>)
    requires cpus.Valid() && cpu < |cpus.queues|
    modifies cpus`contents, cpus`threads, cpus`floors, cpus.queues, set q | q in cpus.queues :: q.slots
    ensures cpus.Valid() && Rose(old(cpus.floors), cpus.floors) && SameThreads(old(cpus.threads), cpus.threads)
    ensures |cpus.contents| == |old(cpus.contents)| == |cpus.queues|
    ensures OnQueue(cpus.threads) == OnQueue(old(cpus.threads)) - lost && Stranded(cpus, old(cpus.contents), old(cpus.threads), cpu, lost)
    ensures TurnedAway(cpus, cpus.contents, old(cpus.threads), cpu, lost)
    ensures NoneHomeless(cpus, old(cpus.threads)) && Roomy(old(cpus.contents), cpus.capacity, PUSH_BATCH) ==> lost == {}
    ensures rescued < PUSH_BATCH && NoneHomeless(cpus, old(cpus.threads)) ==> !Some(cpus, cpus.contents[cpu], cpus.threads, cpu, true)
  {
    hide Filed, Floors, SameThreads, OnQueue, NoneHomeless, Some, Worst, Sent, Stranded, TurnedAway, Kept, Cpus.Good, LeastLoad, Cpus.CanRun, Rescuing;
    ghost var threads0, contents0 := cpus.threads, cpus.contents;
    cpus.Lengths();
    rescued, lost := 0, {};
    StartRescue(cpus, contents0, threads0, cpu);
    while rescued < PUSH_BATCH
      invariant rescued <= PUSH_BATCH && cpus.Valid() && Rose(old(cpus.floors), cpus.floors) && |cpus.contents| == |cpus.queues|
      invariant Rescuing(cpus, contents0, threads0, cpus.contents, cpus.threads, cpu, lost, rescued)
    {
      ghost var threads, contents := cpus.threads, cpus.contents;
      ghost var t;
      var took, kept, at;
      took, kept, at, t := MoveStranded(cpus, cpu);
      if !took {
        break;
      }
      RescueMore(cpus, contents0, threads0, contents, threads, cpus.contents, cpus.threads, cpu, lost, rescued, t, at, kept);
      if !kept { lost := lost + {t}; }
      if at >= |cpus.queues| {
        break;
      }
      rescued := rescued + 1;
    }
    RescueEnd(cpus, contents0, threads0, cpus.contents, cpus.threads, cpu, lost, rescued);
  }

  lemma StartRescue(cpus: Cpus, contents: seq<Keys>, threads: Threads, cpu: nat)
    requires cpu < |contents|
    ensures Rescuing(cpus, contents, threads, contents, threads, cpu, {}, 0)
  {
    hide OnQueue;
    SameIsSame(threads);
    NoneStranded(cpus, contents, threads, cpu);
  }

  lemma RescueEnd(cpus: Cpus, contents0: seq<Keys>, threads0: Threads, contents: seq<Keys>, threads: Threads, cpu: nat, lost: set<nat>, rescued: nat)
    requires Rescuing(cpus, contents0, threads0, contents, threads, cpu, lost, rescued)
    ensures SameThreads(threads0, threads) && |contents| == |contents0| && Stranded(cpus, contents0, threads0, cpu, lost)
    ensures TurnedAway(cpus, contents, threads0, cpu, lost)
    ensures OnQueue(threads) == OnQueue(threads0) - lost
    ensures NoneHomeless(cpus, threads0) && Roomy(contents0, cpus.capacity, PUSH_BATCH) ==> lost == {}
  {
    hide SameThreads, OnQueue, Stranded, TurnedAway, NoneHomeless, Roomy;
  }

  /** One more stranded thread taken. */
  lemma RescueMore(cpus: Cpus, contents0: seq<Keys>, threads0: Threads, contents: seq<Keys>, threads: Threads,
                   contents': seq<Keys>, threads': Threads, cpu: nat, lost: set<nat>, rescued: nat, t: nat, at: nat, kept: bool)
    requires Rescuing(cpus, contents0, threads0, contents, threads, cpu, lost, rescued) && rescued < PUSH_BATCH
    requires SameThreads(threads, threads') && |contents'| == |contents| && contents'[cpu].Keys <= contents[cpu].Keys
    requires Worst(cpus, contents[cpu], threads, cpu, true, t) && t in OnQueue(threads) && t in threads
    requires at < |contents| <==> cpus.RunsSomewhere(threads[t])
    requires at < |contents| ==> at != cpu && cpus.CanRun(threads[t], at)
    requires kept <==> at < |contents| && |contents[at]| < cpus.capacity
    requires Kept(contents, contents', cpu)
    requires OnQueue(threads') == if kept then OnQueue(threads) else OnQueue(threads) - {t}
    requires forall c :: 0 <= c < |contents| ==> |contents'[c]| <= |contents[c]| + if kept then 1 else 0
    ensures Rescuing(cpus, contents0, threads0, contents', threads', cpu, if kept then lost else lost + {t},
                     if at < |contents| then rescued + 1 else rescued)
    ensures NoneHomeless(cpus, threads0) ==> at < |contents|
  {
    hide SameThreads, OnQueue, Stranded, TurnedAway, NoneHomeless, Worst, Kept, Cpus.RunsSomewhere, Cpus.CanRun;
    SameChain(threads0, threads, threads');
    if !kept { TurnedMore(cpus, contents, threads0, threads, cpu, lost, t, at); }
    TurnedStill(cpus, contents, contents', threads0, cpu, if kept then lost else lost + {t});
    StrandedStill(cpus, contents0, threads0, contents, threads, cpu, lost, t);
    if NoneHomeless(cpus, threads0) {
      HomesKept(cpus, threads0, threads);
      HasHome(cpus, threads, t);
    }
  }

  /** Some stranded threads have been sent away, and those in `lost` got lost. */
  ghost predicate Rescuing(cpus: Cpus, contents0: seq<Keys>, threads0: Threads, contents: seq<Keys>, threads: Threads,
                           cpu: nat, lost: set<nat>, rescued: nat)
    reads cpus`online
  {
    && SameThreads(threads0, threads) && cpu < |contents0| == |contents| && contents[cpu].Keys <= contents0[cpu].Keys
    && OnQueue(threads) == OnQueue(threads0) - lost && Stranded(cpus, contents0, threads0, cpu, lost)
    && TurnedAway(cpus, contents, threads0, cpu, lost)
    && (forall c :: 0 <= c < |contents0| ==> |contents[c]| <= |contents0[c]| + rescued)
    && (NoneHomeless(cpus, threads0) && Roomy(contents0, cpus.capacity, PUSH_BATCH) ==> lost == {})
  }

  lemma NoneStranded(cpus: Cpus, contents: seq<Keys>, threads: Threads, cpu: nat)
    requires cpu < |contents|
    ensures Stranded(cpus, contents, threads, cpu, {})
  {
  }

  lemma NoneTurned(cpus: Cpus, contents: seq<Keys>, threads: Threads, cpu: nat)
    ensures TurnedAway(cpus, contents, threads, cpu, {})
  {
  }

  lemma FlowedKept(before: seq<Keys>, after: seq<Keys>, source: nat, target: nat)
    requires Flowed(before, after, source, target)
    ensures Kept(before, after, source)
  {
    if source != target {
      Sets.SubsetSize(after[target].Keys, before[target].Keys);
      KeysSize(after[target]);
      KeysSize(before[target]);
    }
  }

  lemma StrandedStill(cpus: Cpus, contents: seq<Keys>, threads: Threads, later: seq<Keys>, after: Threads, cpu: nat, ts: set<nat>, t: nat)
    requires Stranded(cpus, contents, threads, cpu, ts) && cpu < |later| && later[cpu].Keys <= contents[cpu].Keys
    requires SameThreads(threads, after) && Worst(cpus, later[cpu], after, cpu, true, t)
    ensures Stranded(cpus, contents, threads, cpu, ts + {t})
  {
    assert t in later[cpu].Keys;
  }

  lemma HasHome(cpus: Cpus, threads: Threads, t: nat)
    requires NoneHomeless(cpus, threads)
    ensures t in OnQueue(threads) ==> t in threads && cpus.RunsSomewhere(threads[t])
  {
  }

  /** `target` was the least loaded processor before `moved` threads came to it from `cpu`. */
  ghost predicate WasIdlest(cpus: Cpus, cpu: nat, target: nat, moved: nat)
    requires |cpus.busy| == |cpus.queues|
    reads cpus, cpus.queues
  {
    && target < |cpus.queues| && |cpus.online| == |cpus.queues|
    && forall c :: 0 <= c < |cpus.queues| && cpus.online[c] ==>
         cpus.Load(target) <= cpus.Load(c) + if c == cpu then 2 * moved else moved
  }

  /** Work was pushed until the loads were level, the batch was used up, or nothing was left to push. */
  ghost predicate Levelled(cpus: Cpus, cpu: nat, target: nat, moved: nat)
    requires |cpus.busy| == |cpus.queues|
    reads cpus, cpus.queues
  {
    && WasIdlest(cpus, cpu, target, moved) && cpu < |cpus.queues| && |cpus.contents| == |cpus.queues|
    && (moved == PUSH_BATCH || cpus.Load(cpu) <= cpus.Load(target) + 1
        || !Some(cpus, cpus.contents[cpu], cpus.threads, target, false))
  }

  /**
   * One round of balancing for one processor.  Only stranded threads can be lost, each because it may run
   * nowhere or its home is full, and none is when each queued thread may run somewhere and the queues have
   * room for the rescued ones; pushing loses none whatever the queues hold, and never leaves the processor
   * less loaded than the one it pushed to.
   */
  method Rebalance(cpus: Cpus, cpu: nat) returns (rescued: nat, moved: nat, target: nat, ghost lost: set<nat>)
    requires cpus.Valid() && cpu < |cpus.queues|
    modifies cpus`contents, cpus`threads, cpus`floors, cpus.queues, set q | q in cpus.queues :: q.slots
    ensures cpus.Valid() && Rose(old(cpus.floors), cpus.floors) && SameThreads(old(cpus.threads), cpus.threads)
    ensures OnQueue(cpus.threads) == OnQueue(old(cpus.threads)) - lost && Stranded(cpus, old(cpus.contents), old(cpus.threads), cpu, lost)
    ensures TurnedAway(cpus, cpus.contents, old(cpus.threads), cpu, lost)
    ensures NoneHomeless(cpus, old(cpus.threads)) && Roomy(old(cpus.contents), cpus.capacity, PUSH_BATCH) ==> lost == {}
    ensures moved > 0 ==> target < |cpus.queues| && target != cpu && cpus.Load(cpu) >= cpus.Load(target)
    ensures NoneHomeless(cpus, old(cpus.threads)) && |cpus.queues| > 1 && rescued < PUSH_BATCH ==>
              !Some(cpus, cpus.contents[cpu], cpus.threads, cpu, true)
    ensures |cpus.queues| > 1 && (exists c :: 0 <= c < |cpus.queues| && cpus.online[c]) ==> Levelled(cpus, cpu, target, moved)
  {
    hide Filed, Floors, SameThreads, OnQueue, NoneHomeless, Roomy, Cpus.Good, Some, Levelled, Flowed, Stranded, TurnedAway, Kept;
    rescued, moved, target, lost := 0, 0, cpu, {};
    cpus.Lengths();
    SameIsSame(cpus.threads);
    NoneStranded(cpus, cpus.contents, cpus.threads, cpu);
    NoneTurned(cpus, cpus.contents, cpus.threads, cpu);
    if |cpus.queues| <= 1 {
      return;
    }
    rescued, lost := RescueSome(cpus, cpu);
    ghost var threads, contents := cpus.threads, cpus.contents;
    cpus.Lengths();
    moved, target := PushToIdlest(cpus, cpu);
    cpus.Lengths();
    FewerWanted(cpus, contents, threads, cpus.contents, cpus.threads, cpu, target);
    FlowedKept(contents, cpus.contents, cpu, target);
    TurnedStill(cpus, contents, cpus.contents, old(cpus.threads), cpu, lost);
    SameChain(old(cpus.threads), threads, cpus.threads);
  }

  /** A queue that only lost threads has no stranded ones it did not have. */
  lemma FewerWanted(cpus: Cpus, contents: seq<Keys>, threads: Threads, after: seq<Keys>, later: Threads, cpu: nat, target: nat)
    requires Flowed(contents, after, cpu, target) && SameThreads(threads, later)
    ensures Some(cpus, after[cpu], later, cpu, true) ==> Some(cpus, contents[cpu], threads, cpu, true)
  {
    if Some(cpus, after[cpu], later, cpu, true) {
      var u :| u in after[cpu] && u in later && cpus.Wanted(later[u], cpu, true);
      assert u in after[cpu].Keys && u in contents[cpu].Keys;
      assert cpus.Wanted(threads[u], cpu, true);
    }
  }

  /** Pushes half of the difference to the least loaded processor, which always has room for that. */
  method PushToIdlest(cpus: Cpus, cpu: nat) returns (moved: nat, target: nat)
    requires cpus.Valid() && cpu < |cpus.queues|
    modifies cpus`contents, cpus`threads, cpus`floors, cpus.queues, set q | q in cpus.queues :: q.slots
    ensures cpus.Valid() && Rose(old(cpus.floors), cpus.floors) && SameThreads(old(cpus.threads), cpus.threads)
    ensures OnQueue(cpus.threads) == OnQueue(old(cpus.threads)) && target < |cpus.queues| == |old(cpus.contents)|
    ensures moved > 0 ==> target != cpu && cpus.Load(cpu) >= cpus.Load(target)
    ensures (exists c :: 0 <= c < |cpus.queues| && cpus.online[c]) ==> Levelled(cpus, cpu, target, moved)
    ensures Flowed(old(cpus.contents), cpus.contents, cpu, target)
  {
    hide Filed, Floors, SameThreads, OnQueue, Cpus.Good, Some, Flowed, WasIdlest, Lightest, Cpus.RunsSomewhere;
    moved := 0;
    cpus.Lengths();
    SameIsSame(cpus.threads);
    var found;
    found, target := Idlest(cpus);
    FlowedNone(cpus.contents, cpu, if found then target else cpu);
    if !found {
      target := cpu;
      return;
    }
    NoLoadMoved(cpus, cpu, target);
    if target == cpu {
      return;
    }
    var local, idle := cpus.Load(cpu), cpus.Load(target);
    if local <= idle + 1 {
      return;
    }
    var most := (local - idle) / 2;
    if most > PUSH_BATCH {
      most := PUSH_BATCH;
    }
    LightestIs(cpus, target);
    moved := PushHalf(cpus, cpu, target, most);
  }

  /** Pushes at most half of the difference: the other queue has room for that, and stays the shorter one. */
  method PushHalf(cpus: Cpus, cpu: nat, target: nat, most: nat) returns (moved: nat)
    requires cpus.Valid() && cpu < |cpus.queues| && target < |cpus.queues| && cpu != target
    requires |cpus.busy| == |cpus.queues| == |cpus.online| && cpus.online[target]
    requires 2 * most <= cpus.Load(cpu) - cpus.Load(target) && (most == PUSH_BATCH || cpus.Load(cpu) - cpus.Load(target) <= 2 * most + 1)
    requires Lightest(cpus.contents, cpus.busy, cpus.online, target)
    modifies cpus`contents, cpus`threads, cpus`floors, cpus.queues, set q | q in cpus.queues :: q.slots
    ensures cpus.Valid() && Rose(old(cpus.floors), cpus.floors) && SameThreads(old(cpus.threads), cpus.threads)
    ensures OnQueue(cpus.threads) == OnQueue(old(cpus.threads)) && |cpus.queues| == |old(cpus.contents)|
    ensures cpus.Load(cpu) >= cpus.Load(target)
    ensures Levelled(cpus, cpu, target, moved)
    ensures Flowed(old(cpus.contents), cpus.contents, cpu, target)
  {
    hide Filed, Floors, SameThreads, OnQueue, Cpus.Good, Some, Flowed, WasIdlest, Lightest;
    cpus.Lengths();
    cpus.LoadIs(cpu);
    cpus.LoadIs(target);
    cpus.Bounded(cpu);
    ghost var contents := cpus.contents;
    ghost var lost;
    moved, lost := Push(cpus, cpu, target, most);
    assert lost == {};
    cpus.Lengths();
    cpus.LoadIs(cpu);
    cpus.LoadIs(target);
    LoadMoved(cpus, contents, cpu, target, moved);
  }

  ghost function LoadOf(contents: seq<Keys>, busy: seq<bool>, c: nat): nat
    requires c < |contents| == |busy|
  {
    |contents[c]| + if busy[c] then 1 else 0
  }

  ghost predicate Lightest(contents: seq<Keys>, busy: seq<bool>, online: seq<bool>, target: nat) {
    && |contents| == |busy| == |online| && target < |contents|
    && forall c :: 0 <= c < |contents| && online[c] ==> LoadOf(contents, busy, target) <= LoadOf(contents, busy, c)
  }

  lemma LightestIs(cpus: Cpus, target: nat)
    requires cpus.Good() && |cpus.busy| == |cpus.queues| == |cpus.online| == |cpus.contents| && target < |cpus.queues|
    requires forall c :: 0 <= c < |cpus.queues| && cpus.online[c] ==> cpus.Load(target) <= cpus.Load(c)
    ensures Lightest(cpus.contents, cpus.busy, cpus.online, target)
  {
    hide Cpus.Good;
    forall c | 0 <= c < |cpus.queues|
      ensures cpus.Load(c) == LoadOf(cpus.contents, cpus.busy, c)
    {
      cpus.LoadIs(c);
    }
  }

  lemma NoLoadMoved(cpus: Cpus, cpu: nat, target: nat)
    requires |cpus.busy| == |cpus.queues| == |cpus.online| && target < |cpus.queues|
    requires forall c :: 0 <= c < |cpus.queues| && cpus.online[c] ==> cpus.Load(target) <= cpus.Load(c)
    ensures WasIdlest(cpus, cpu, target, 0)
  {
  }

  lemma LoadMoved(cpus: Cpus, contents: seq<Keys>, cpu: nat, target: nat, moved: nat)
    requires cpus.Good() && cpu != target && |cpus.busy| == |cpus.queues| == |cpus.contents| == |cpus.online|
    requires Flowed(contents, cpus.contents, cpu, target) && Lightest(contents, cpus.busy, cpus.online, target)
    requires |cpus.contents[cpu]| + moved == |contents[cpu]| && |cpus.contents[target]| == |contents[target]| + moved
    ensures WasIdlest(cpus, cpu, target, moved)
  {
    hide Cpus.Good;
    forall c | 0 <= c < |cpus.queues|
      ensures cpus.Load(c) == LoadOf(cpus.contents, cpus.busy, c)
    {
      cpus.LoadIs(c);
    }
  }

  /** The busiest other processor, if any has work. */
  method BusiestPeer(cpus: Cpus, cpu: nat) returns (found: bool, r: nat)
    requires cpus.Valid()
    ensures found ==> r < |cpus.queues| && r != cpu && cpus.online[r] && cpus.Load(r) > 0
    ensures found ==> forall c :: 0 <= c < |cpus.queues| && c != cpu && cpus.online[c] ==> cpus.Load(c) <= cpus.Load(r)
    ensures !found ==> forall c :: 0 <= c < |cpus.queues| && c != cpu && cpus.online[c] ==> cpus.Load(c) == 0
  {
    hide Filed, Floors;
    found, r := false, 0;
    for c := 0 to |cpus.queues|
      invariant found ==> r < c && r != cpu && cpus.online[r] && cpus.Load(r) > 0
      invariant forall d :: 0 <= d < c && d != cpu && cpus.online[d] ==> cpus.Load(d) <= if found then cpus.Load(r) else 0
    {
      if c != cpu && cpus.online[c] && cpus.Load(c) > if found then cpus.Load(r) else 0 {
        found, r := true, c;
      }
    }
  }

  /** No other processor that is online has more work than `r`. */
  ghost predicate Busiest(cpus: Cpus, cpu: nat, r: nat)
    requires |cpus.busy| == |cpus.queues|
    reads cpus, cpus.queues
  {
    && r < |cpus.queues| == |cpus.online| && r != cpu && cpus.online[r]
    && forall c :: 0 <= c < |cpus.queues| && c != cpu && cpus.online[c] ==> cpus.Load(c) <= cpus.Load(r)
  }

  /** No other processor that is online has two threads. */
  ghost predicate AllCalm(cpus: Cpus, cpu: nat)
    requires |cpus.busy| == |cpus.queues|
    reads cpus, cpus.queues
  {
    |cpus.queues| == |cpus.online| && forall c :: 0 <= c < |cpus.queues| && c != cpu && cpus.online[c] ==> cpus.Load(c) < 2
  }

  /** A processor counts by its queue and the thread it runs; one with fewer than two is left alone. */
  lemma StealingIs(cpus: Cpus, cpu: nat, r: nat)
    requires cpus.Good() && cpu < |cpus.queues| == |cpus.busy| == |cpus.online| == |cpus.contents|
    ensures AllCalm(cpus, cpu) <==> forall c :: 0 <= c < |cpus.contents| && c != cpu && cpus.online[c] ==>
              |cpus.contents[c]| == 0 || (|cpus.contents[c]| == 1 && !cpus.busy[c])
    ensures Busiest(cpus, cpu, r) <==>
            && r < |cpus.contents| && r != cpu && cpus.online[r]
            && forall c :: 0 <= c < |cpus.contents| && c != cpu && cpus.online[c] ==>
                |cpus.contents[c]| + (if cpus.busy[c] then 1 else 0) <= |cpus.contents[r]| + if cpus.busy[r] then 1 else 0
  {
    hide Cpus.Good;
    forall c: nat | c < |cpus.queues|
      ensures cpus.Load(c) == |cpus.contents[c]| + if cpus.busy[c] then 1 else 0
    {
      cpus.LoadIs(c);
    }
  }

  /** Pushing ends after two threads, when the loads differ by at most one, or when the target may run no other. */
  lemma LevelledIs(cpus: Cpus, cpu: nat, target: nat, moved: nat)
    requires cpus.Good() && |cpus.queues| == |cpus.busy| == |cpus.online| == |cpus.contents| && Levelled(cpus, cpu, target, moved)
    ensures cpu < |cpus.contents| && target < |cpus.contents|
    ensures moved == 2 || !Some(cpus, cpus.contents[cpu], cpus.threads, target, false)
            || |cpus.contents[cpu]| + (if cpus.busy[cpu] then 1 else 0) <= |cpus.contents[target]| + (if cpus.busy[target] then 1 else 0) + 1
    ensures forall c :: 0 <= c < |cpus.contents| && cpus.online[c] && c != cpu ==>
              |cpus.contents[target]| + (if cpus.busy[target] then 1 else 0) <= |cpus.contents[c]| + (if cpus.busy[c] then 1 else 0) + moved
  {
    hide Cpus.Good, Some;
    forall c: nat | c < |cpus.queues|
      ensures cpus.Load(c) == |cpus.contents[c]| + if cpus.busy[c] then 1 else 0
    {
      cpus.LoadIs(c);
    }
  }

  /**
   * An idle processor steals from the busiest one: it keeps one thread to run and queues a second one
   * behind it.  The thread it returns leaves the queues, and so does the second one when the
   * processor's own queue is full.
   */
  method Steal(cpus: Cpus, cpu: nat) returns (found: bool, t: nat, ghost peer: nat, ghost lost: set<nat>)
    requires cpus.Valid() && cpu < |cpus.queues| && cpus.online[cpu]
    modifies cpus`contents, cpus`threads, cpus`floors, cpus.queues, set q | q in cpus.queues :: q.slots
    ensures cpus.Valid() && Rose(old(cpus.floors), cpus.floors) && SameThreads(old(cpus.threads), cpus.threads)
    ensures found ==> t in OnQueue(old(cpus.threads)) && t in cpus.threads && cpus.Wanted(cpus.threads[t], cpu, false)
    ensures OnQueue(cpus.threads) == OnQueue(old(cpus.threads)) - lost - if found then {t} else {}
    ensures cpu < |old(cpus.contents)| && |lost| <= 1 && (lost != {} ==> |old(cpus.contents)[cpu]| == cpus.capacity)
    ensures old(AllCalm(cpus, cpu)) ==> !found
    ensures !old(AllCalm(cpus, cpu)) ==> old(Busiest(cpus, cpu, peer)) && peer < |old(cpus.contents)|
    ensures !old(AllCalm(cpus, cpu)) ==> (found <==> Some(cpus, old(cpus.contents)[peer], old(cpus.threads), cpu, false))
    ensures found ==> peer < |old(cpus.contents)| && Worst(cpus, old(cpus.contents)[peer], old(cpus.threads), cpu, false, t)
    ensures found ==> t in old(cpus.threads) && forall u :: u in old(cpus.contents)[peer] && u in old(cpus.threads) && cpus.Wanted(old(cpus.threads)[u], cpu, false) ==>
              old(cpus.threads)[u].vruntime <= old(cpus.threads)[t].vruntime
              && (old(cpus.threads)[u].vruntime == old(cpus.threads)[t].vruntime ==> old(cpus.threads)[u].pid <= old(cpus.threads)[t].pid)
  {
    hide Filed, Floors, SameThreads, OnQueue, Cpus.Good, Cpus.Wanted, Some, Worst;
    found, t, peer, lost := false, 0, 0, {};
    cpus.Lengths();
    SameIsSame(cpus.threads);
    var some, r := BusiestPeer(cpus, cpu);
    if some && cpus.Load(r) >= 2 {
      peer := r;
      ghost var contents, threads := cpus.contents, cpus.threads;
      found, t, lost := StealFrom(cpus, r, cpu);
      if found { WorstFacts(cpus, contents[r], threads, cpu, false, t); }
    }
  }

  method StealFrom(cpus: Cpus, peer: nat, cpu: nat) returns (found: bool, t: nat, ghost lost: set<nat>)
    requires cpus.Valid() && cpu < |cpus.queues| && peer < |cpus.queues| && peer != cpu && cpu < |cpus.online| && cpus.online[cpu]
    modifies cpus`contents, cpus`threads, cpus`floors, cpus.queues, set q | q in cpus.queues :: q.slots
    ensures cpus.Valid() && Rose(old(cpus.floors), cpus.floors) && SameThreads(old(cpus.threads), cpus.threads)
    ensures |old(cpus.contents)| == |cpus.contents| == |cpus.queues|
    ensures found <==> Some(cpus, old(cpus.contents)[peer], old(cpus.threads), cpu, false)
    ensures found ==> Worst(cpus, old(cpus.contents)[peer], old(cpus.threads), cpu, false, t)
    ensures found ==> t in OnQueue(old(cpus.threads)) && t in cpus.threads && cpus.Wanted(cpus.threads[t], cpu, false) && cpus.threads[t].lastCpu == cpu
    ensures OnQueue(cpus.threads) == OnQueue(old(cpus.threads)) - lost - if found then {t} else {}
    ensures |lost| <= 1 && (lost != {} ==> |old(cpus.contents)[cpu]| == cpus.capacity)
    ensures found ==> |cpus.contents[cpu]| == |old(cpus.contents)[cpu]| + 1 || lost != {}
                      || (cpus.contents[cpu] == old(cpus.contents)[cpu] && !Some(cpus, cpus.contents[peer], cpus.threads, cpu, false))
  {
    hide Filed, Floors, SameThreads, OnQueue, WithoutThread, NotWorse, Cpus.Wanted, Cpus.Good, Some, Worst, Sent, Flowed;
    lost := {};
    cpus.Lengths();
    cpus.Bounded(cpu);
    ghost var contents, threads := cpus.contents, cpus.threads;
    SameIsSame(threads);
    found, t := Take(cpus, peer, cpu, false);
    if !found {
      return;
    }
    WorstFacts(cpus, contents[peer], threads, cpu, false, t);
    TakenThread(contents, threads, peer, t);
    OthersKeep(contents, peer, cpu, t);
    ghost var threads1 := cpus.threads;
    Relabelled(threads1, t, cpu);
    cpus.Relabel(t, cpu);
    SameChain(threads, threads1, cpus.threads);
    ghost var threads2 := cpus.threads;
    cpus.Lengths();
    var second, queued;
    ghost var u;
    second, queued, u := MoveWorst(cpus, peer, cpu);
    SameChain(threads, threads2, cpus.threads);
    StillWanted(cpus, threads, cpus.threads, t, cpu);
    cpus.Lengths();
    if second {
      OffStays(threads2, cpus.threads, u, cpu, queued, t);
      if !queued { lost := {u}; }
    }
  }

  lemma OffStays(a: Threads, b: Threads, u: nat, at: nat, queued: bool, t: nat)
    requires Sent(a, b, u, at, queued) && t in a && a[t].lastCpu == at
    ensures t in b && b[t].lastCpu == at
  {
  }

  lemma Relabelled(threads: Threads, t: nat, c: nat)
    requires t in threads
    ensures SameThreads(threads, threads[t := threads[t].(lastCpu := c)])
    ensures OnQueue(threads[t := threads[t].(lastCpu := c)]) == OnQueue(threads)
  {
  }

  lemma StillWanted(cpus: Cpus, a: Threads, b: Threads, t: nat, c: nat)
    requires SameThreads(a, b) && t in a && cpus.Wanted(a[t], c, false)
    ensures t in b && cpus.Wanted(b[t], c, false)
  {
  }

  lemma SameIsSame(threads: Threads)
    ensures SameThreads(threads, threads)
  {
  }

  lemma OthersKeep(contents: seq<Keys>, source: nat, target: nat, t: nat)
    requires source < |contents| && target < |contents| && source != target
    ensures WithoutThread(contents, source, t)[target] == contents[target] && |WithoutThread(contents, source, t)| == |contents|
  {
  }
}
