/**
 * One run queue per processor: queueing, picking the best thread a processor may run, and taking
 * threads for other processors.
 */
module RunQueues {
  import opened HeapOrder
  import opened ThreadHeap

  /** A thread as the scheduler sees it; an empty mask allows every processor that is online. */
  datatype Thread = Thread(vruntime: nat, sumExec: nat, pid: nat, mask: set<nat>, ready: bool, running: bool, onRq: bool, lastCpu: nat)

  type Threads = map<nat, Thread>

  function KeyOf(t: Thread): Key {
    Key(t.vruntime, t.sumExec, t.pid)
  }

  // ----- what is queued where

  /** A queued thread is in exactly one queue, the one it names, under its current key, and does not run. */
  ghost predicate Filed(contents: seq<Keys>, threads: Threads) {
    && (forall c, t :: 0 <= c < |contents| && t in contents[c] ==>
          t in threads && threads[t].onRq && threads[t].lastCpu == c && contents[c][t] == KeyOf(threads[t]))
    && forall t :: t in threads && threads[t].onRq ==>
         threads[t].lastCpu < |contents| && t in contents[threads[t].lastCpu] && !threads[t].running
  }

  /** The floor of a queue is the least virtual runtime in it. */
  ghost predicate Floor(keys: Keys, floor: nat) {
    && (forall t :: t in keys ==> floor <= keys[t].a)
    && (keys != map[] ==> exists t :: t in keys && keys[t].a == floor)
  }

  ghost predicate Floors(contents: seq<Keys>, floors: seq<nat>) {
    |floors| == |contents| && forall c :: 0 <= c < |contents| ==> Floor(contents[c], floors[c])
  }

  /** The thread once it is queued on processor `c`. */
  function Queued(t: Thread, floor: nat, c: nat): (n: Thread)
    ensures n == t.(vruntime := n.vruntime, onRq := true, lastCpu := c)
    ensures n.vruntime >= floor && n.vruntime >= t.vruntime && (n.vruntime == floor || n.vruntime == t.vruntime)
  {
    t.(vruntime := if t.vruntime < floor then floor else t.vruntime, onRq := true, lastCpu := c)
  }

  /** The thread turned away by a full queue on processor `c`: its runtime is raised all the same. */
  function Turned(t: Thread, floor: nat): (n: Thread)
    ensures n == t.(vruntime := n.vruntime)
    ensures n.vruntime >= floor && n.vruntime >= t.vruntime && (n.vruntime == floor || n.vruntime == t.vruntime)
  {
    t.(vruntime := if t.vruntime < floor then floor else t.vruntime)
  }

  function WithThread(contents: seq<Keys>, c: nat, t: nat, key: Key): seq<Keys>
    requires c < |contents|
  {
    var k: Keys := contents[c][t := key];
    contents[c := k]
  }

  function WithoutThread(contents: seq<Keys>, c: nat, t: nat): seq<Keys>
    requires c < |contents|
  {
    contents[c := contents[c] - {t}]
  }

  lemma FiledPut(contents: seq<Keys>, threads: Threads, c: nat, t: nat, th: Thread)
    requires Filed(contents, threads) && c < |contents| && t in threads && !threads[t].onRq && th.onRq && th.lastCpu == c && !th.running
    ensures t !in contents[c] && Filed(WithThread(contents, c, t, KeyOf(th)), threads[t := th])
  {
  }

  lemma FiledTake(contents: seq<Keys>, threads: Threads, c: nat, t: nat, th: Thread)
    requires Filed(contents, threads) && c < |contents| && t in contents[c] && !th.onRq
    ensures Filed(WithoutThread(contents, c, t), threads[t := th])
  {
    var n := WithoutThread(contents, c, t);
    assert threads[t].lastCpu == c;
    forall d, u | 0 <= d < |n| && u in n[d]
      ensures u != t && u in contents[d]
    {
      assert u in contents[d];
    }
  }

  lemma FiledNew(contents: seq<Keys>, threads: Threads, t: nat, th: Thread)
    requires Filed(contents, threads) && t !in threads && !th.onRq
    ensures Filed(contents, threads[t := th])
  {
  }

  lemma FiledMask(contents: seq<Keys>, threads: Threads, t: nat, mask: set<nat>)
    requires Filed(contents, threads) && t in threads
    ensures Filed(contents, threads[t := threads[t].(mask := mask)])
  {
  }

  lemma FiledTouch(contents: seq<Keys>, threads: Threads, t: nat, th: Thread)
    requires Filed(contents, threads) && t in threads && !threads[t].onRq && !th.onRq
    ensures Filed(contents, threads[t := th])
  {
  }

  /** Thread `t` ends up in queue `at`, or off the queues, or as it was; no other thread changes. */
  ghost predicate Requeued(before: Threads, after: Threads, t: nat, at: nat, queued: bool, moves: bool) {
    && t in before && after.Keys == before.Keys && (forall u :: u in before && u != t ==> after[u] == before[u])
    && after[t].vruntime >= before[t].vruntime
    && after[t] == (if queued && moves then before[t].(vruntime := after[t].vruntime, onRq := true, lastCpu := at)
                    else if moves && before[t].ready then before[t].(vruntime := after[t].vruntime, onRq := false) else before[t])
  }

  lemma NotRequeued(threads: Threads, t: nat)
    requires t in threads
    ensures forall at, queued, moves ::
              (moves ==> !queued && !threads[t].ready) ==> Requeued(threads, threads, t, at, queued, moves)
  {
  }

  lemma OtherSize(contents: seq<Keys>, c: nat, t: nat, d: nat)
    requires c < |contents| && d < |contents| && c != d
    ensures |WithoutThread(contents, c, t)| == |contents| && WithoutThread(contents, c, t)[d] == contents[d]
  {
  }

  class Cpus {
    const queues: seq<IndexedHeap>
    const capacity: nat
    var online: seq<bool>
    /** Whether a processor runs a thread of its own rather than idling. */
    var busy: seq<bool>
    var floors: seq<nat>
    var threads: Threads
    /** The members of every queue. */
    ghost var contents: seq<Keys>

    ghost predicate Apart() {
      forall i, j :: 0 <= i < j < |queues| ==> queues[i] != queues[j] && queues[i].slots != queues[j].slots
    }

    ghost predicate Good()
      reads this`contents, this`online, this`busy, this`floors, queues, set q | q in queues :: q.slots
    {
      && Apart() && |contents| == |queues| == |online| == |busy| == |floors| <= 64
      && forall c :: 0 <= c < |queues| ==> queues[c].Valid() && queues[c].keys == contents[c] && queues[c].slots.Length == capacity
    }

    ghost predicate Valid()
      reads this, queues, set q | q in queues :: q.slots
    {
      Good() && Filed(contents, threads) && Floors(contents, floors)
    }

    /** The load of a processor: queued threads and the running one. */
    function Load(c: nat): nat
      requires c < |queues| == |busy|
      reads this, queues
    {
      queues[c].count + if busy[c] then 1 else 0
    }

    /** Empty queues, nothing running, no thread known. */
    constructor (online: seq<bool>, capacity: nat)
      requires |online| <= 64
      ensures Valid() && this.online == online && this.capacity == capacity && threads == map[]
      ensures |queues| == |online| && forall c :: 0 <= c < |contents| ==> contents[c] == map[]
      ensures fresh(queues) && fresh(set q | q in queues :: q.slots)
    {
      var qs: seq<IndexedHeap> := [];
      for i := 0 to |online|
        invariant |qs| == i && forall c :: 0 <= c < i ==> fresh(qs[c]) && fresh(qs[c].slots)
        invariant forall c :: 0 <= c < i ==> qs[c].Valid() && qs[c].keys == map[] && qs[c].slots.Length == capacity
        invariant forall c, d :: 0 <= c < d < i ==> qs[c] != qs[d] && qs[c].slots != qs[d].slots
      {
        var q := new IndexedHeap(capacity);
        qs := qs + [q];
      }
      queues, this.capacity, this.online := qs, capacity, online;
      busy, floors := seq(|online|, _ => false), seq(|online|, _ => 0);
      threads, contents := map[], seq(|online|, _ => map[]);
    }

    lemma Lengths()
      requires Good()
      ensures |contents| == |queues| == |online| == |busy| == |floors|
    {
    }

    lemma LoadIs(c: nat)
      requires Good() && c < |queues|
      ensures Load(c) == |contents[c]| + if busy[c] then 1 else 0
    {
      queues[c].QueuedSize();
    }

    /** Puts a thread into one queue; the others are not touched. */
    method PutIn(c: nat, t: nat, key: Key) returns (ok: bool)
      requires Good() && c < |queues| && t !in contents[c]
      modifies this`contents, queues[c], queues[c].slots
      ensures Good() && ok == (|old(contents)[c]| < capacity)
      ensures contents == if ok then WithThread(old(contents), c, t, key) else old(contents)
    {
      hide IndexedHeap.Valid, IndexedHeap.Filed;
      queues[c].QueuedSize();
      ok := queues[c].Insert(t, key);
      contents := contents[c := queues[c].keys];
    }

    method TakeFrom(c: nat, t: nat)
      requires Good() && c < |queues| && t in contents[c]
      modifies this`contents, queues[c], queues[c].slots
      ensures Good() && contents == WithoutThread(old(contents), c, t)
    {
      hide IndexedHeap.Valid, IndexedHeap.Filed;
      queues[c].Remove(t);
      contents := contents[c := queues[c].keys];
    }

    /** After a change to one queue: its floor follows its first slot and never falls. */
    method UpdateFloor(c: nat)
      requires Good() && c < |queues| && forall t :: t in contents[c] ==> floors[c] <= contents[c][t].a
      requires forall d :: 0 <= d < |queues| && d != c ==> Floor(contents[d], floors[d])
      modifies this`floors
      ensures Good() && Floors(contents, floors) && floors[c] >= old(floors)[c]
      ensures forall d :: 0 <= d < |queues| && d != c ==> floors[d] == old(floors)[d]
    {
      queues[c].Size();
      if queues[c].count > 0 {
        var top := queues[c].slots[0];
        forall t | t in contents[c]
          ensures contents[c][top].a <= contents[c][t].a
        {
          queues[c].TopLeast(t);
        }
        floors := floors[c := queues[c].keys[top].a];
      }
    }

    predicate Allowed(t: Thread, c: nat)
      reads this`online
    {
      c < 64 && if t.mask == {} then c < |online| && online[c] else c in t.mask
    }

    /** The thread may run on this processor, and the processor is there. */
    predicate CanRun(t: Thread, c: nat)
      reads this`online
    {
      c < |online| && online[c] && Allowed(t, c)
    }

    /** Which processors a thread may use: those of its mask, or all that are online, and never one past the 64th. */
    lemma RightsAre(t: Thread, c: nat)
      ensures CanRun(t, c) <==> c < 64 && c < |online| && online[c] && (t.mask == {} || c in t.mask)
      ensures RunsSomewhere(t) <==> exists d :: 0 <= d < |online| && d < 64 && online[d] && (t.mask == {} || d in t.mask)
      ensures forall unfit :: Wanted(t, c, unfit) <==>
                t.ready && (unfit <==> c >= 64 || (if t.mask == {} then c >= |online| || !online[c] else c !in t.mask))
    {
      if RunsSomewhere(t) {
        var d: nat :| CanRun(t, d);
      }
      if d :| 0 <= d < |online| && d < 64 && online[d] && (t.mask == {} || d in t.mask) {
        assert CanRun(t, d);
      }
    }

    lemma SameMask(a: Thread, b: Thread, c: nat)
      requires a.mask == b.mask
      ensures CanRun(a, c) == CanRun(b, c)
    {
    }

    ghost predicate RunsSomewhere(t: Thread)
      reads this`online
    {
      exists c: nat :: CanRun(t, c)
    }

    /** The least loaded processor for a thread; the given one when it is among the least loaded. */
    method PickCpu(t: Thread, fallback: nat) returns (r: nat)
      requires Good()
      ensures RunsSomewhere(t) ==> CanRun(t, r) && forall c: nat :: CanRun(t, c) ==> c < |queues| && Load(r) <= Load(c)
      ensures CanRun(t, fallback) && (forall c: nat :: CanRun(t, c) ==> Load(fallback) <= Load(c)) ==> r == fallback
      ensures !RunsSomewhere(t) ==> r == if fallback < |queues| then fallback else 0
    {
      var found := false;
      r := 0;
      for c := 0 to |queues|
        invariant found ==> CanRun(t, r) && r < c
        invariant !found ==> forall d: nat :: d < c ==> !CanRun(t, d)
        invariant forall d: nat :: d < c && CanRun(t, d) ==> Load(r) <= Load(d) && (Load(d) == Load(r) && d == fallback ==> r == d)
      {
        if CanRun(t, c) {
          if !found || Load(c) < Load(r) || (Load(c) == Load(r) && c == fallback) {
            found, r := true, c;
          }
        }
      }
      if !found {
        r := if fallback < |queues| then fallback else 0;
      }
    }

    /** A new thread, not queued yet. */
    method Register(t: nat, th: Thread)
      requires Valid() && t !in threads && !th.onRq
      modifies this`threads
      ensures Valid() && threads == old(threads)[t := th]
    {
      hide Filed, Floors, Good;
      FiledNew(contents, threads, t, th);
      threads := threads[t := th];
    }

    /** Stores a new set of allowed processors; where the thread is queued does not change yet. */
    method SetMask(t: nat, mask: set<nat>)
      requires Valid() && t in threads
      modifies this`threads
      ensures Valid() && threads == old(threads)[t := old(threads)[t].(mask := mask)]
    {
      hide Filed, Floors, Good;
      FiledMask(contents, threads, t, mask);
      threads := threads[t := threads[t].(mask := mask)];
    }

    /** A processor comes or goes; its queue stays as it is. */
    method SetOnline(c: nat, on: bool)
      requires Valid() && c < |queues|
      modifies this`online
      ensures Valid() && online == old(online)[c := on]
    {
      hide Filed, Floors, IndexedHeap.Valid;
      online := online[c := on];
    }

    /** No queue is longer than its array. */
    lemma Bounded(c: nat)
      requires Good() && c < |queues|
      ensures |contents[c]| <= capacity
    {
      queues[c].QueuedSize();
      queues[c].Size();
    }

    /** Takes a queued thread out of its queue. */
    method Dequeue(t: nat)
      requires Valid() && t in threads && threads[t].onRq
      modifies this`contents, this`threads, this`floors, queues, set q | q in queues :: q.slots
      ensures Valid() && Rose(old(floors), floors)
      ensures contents == WithoutThread(old(contents), old(threads)[t].lastCpu, t)
      ensures threads == old(threads)[t := old(threads)[t].(onRq := false)]
      ensures forall d :: 0 <= d < |floors| && d != old(threads)[t].lastCpu ==> floors[d] == old(floors)[d]
    {
      hide Filed;
      var c := threads[t].lastCpu;
      QueuedAt(contents, threads, t);
      FiledTake(contents, threads, c, t, threads[t].(onRq := false));
      TakeFrom(c, t);
      threads := threads[t := threads[t].(onRq := false)];
      UpdateFloor(c);
    }

    /** The given processor when the thread may run there, otherwise one where it may. */
    method ChooseCpu(th: Thread, cpu: nat) returns (ok: bool, at: nat)
      requires Good() && cpu < |queues|
      ensures ok <==> RunsSomewhere(th)
      ensures ok ==> at < |queues| && CanRun(th, at) && (CanRun(th, cpu) ==> at == cpu)
    {
      at := cpu;
      if !CanRun(th, cpu) {
        at := PickCpu(th, cpu);
      }
      ok := CanRun(th, at);
    }

    /** Inserts a thread into a queue, raising its virtual runtime to the floor; fails when the queue is full. */
    method InsertAt(t: nat, at: nat) returns (ok: bool)
      requires Valid() && t in threads && !threads[t].onRq && !threads[t].running && at < |queues|
      modifies this`contents, this`threads, this`floors, queues, set q | q in queues :: q.slots
      ensures Valid() && Rose(old(floors), floors) && ok == (|old(contents)[at]| < capacity)
      ensures ok ==> threads == old(threads)[t := Queued(old(threads)[t], old(floors)[at], at)]
      ensures ok ==> contents == WithThread(old(contents), at, t, KeyOf(threads[t]))
      ensures !ok ==> contents == old(contents) && threads == old(threads)[t := Turned(old(threads)[t], old(floors)[at])]
    {
      hide Filed, IndexedHeap.Valid, IndexedHeap.Filed, Apart, Turned;
      var th := Queued(threads[t], floors[at], at);
      FiledPut(contents, threads, at, t, th);
      FiledTouch(contents, threads, t, Turned(threads[t], floors[at]));
      ok := PutIn(at, t, KeyOf(th));
      if ok {
        threads := threads[t := th];
        UpdateFloor(at);
      } else {
        threads := threads[t := Turned(threads[t], floors[at])];
      }
    }

    /**
     * Queues a thread that is not queued, on a processor or where else it may run.  It stays off when
     * it is not ready, is running, may run nowhere, or its queue is full.
     */
    method Enqueue(t: nat, cpu: nat) returns (queued: bool, at: nat)
      requires Valid() && t in threads && !threads[t].onRq
      modifies this`contents, this`threads, this`floors, queues, set q | q in queues :: q.slots
      ensures Valid() && Rose(old(floors), floors) && at <= |queues|
      ensures at < |queues| <==> cpu < |queues| && RunsSomewhere(old(threads)[t])
      ensures at < |queues| ==> CanRun(old(threads)[t], at) && (CanRun(old(threads)[t], cpu) ==> at == cpu)
      ensures queued <==> at < |queues| && old(threads)[t].ready && !old(threads)[t].running && |old(contents)[at]| < capacity
      ensures queued ==> threads == old(threads)[t := Queued(old(threads)[t], old(floors)[at], at)]
      ensures queued ==> contents == WithThread(old(contents), at, t, KeyOf(threads[t]))
      ensures !queued ==> contents == old(contents)
      ensures !queued ==> threads == if at < |queues| && old(threads)[t].ready && !old(threads)[t].running
                                     then old(threads)[t := Turned(old(threads)[t], old(floors)[at])] else old(threads)
    {
      hide Filed, CanRun, Floors, Queued, Turned;
      queued, at := false, |queues|;
      if cpu >= |queues| {
        return;
      }
      var ok, place := ChooseCpu(threads[t], cpu);
      if !ok {
        return;
      }
      at := place;
      if threads[t].ready && !threads[t].running {
        queued := InsertAt(t, at);
      }
    }

    /**
     * The same for any thread: one that is queued where it should be stays, one queued elsewhere moves,
     * and is off every queue when there is no room for it.
     */
    method Requeue(t: nat, cpu: nat) returns (queued: bool, at: nat)
      requires Valid() && t in threads
      modifies this`contents, this`threads, this`floors, queues, set q | q in queues :: q.slots
      ensures Valid() && Rose(old(floors), floors) && at <= |queues|
      ensures at < |queues| <==> cpu < |queues| && RunsSomewhere(old(threads)[t])
      ensures at < |queues| ==> CanRun(old(threads)[t], at) && (CanRun(old(threads)[t], cpu) ==> at == cpu)
      ensures queued <==> at < |queues| && old(threads)[t].ready && (old(Sits(t, at)) || (!old(threads)[t].running && |old(contents)[at]| < capacity))
      ensures Requeued(old(threads), threads, t, at, queued, at < |queues| && !old(Sits(t, at)))
      ensures t in threads && |old(floors)| == |queues|
      ensures at < |queues| && !old(Sits(t, at)) && old(threads)[t].ready && !old(threads)[t].running ==>
                (threads[t].vruntime == if old(threads)[t].vruntime < old(floors)[at] then old(floors)[at] else old(threads)[t].vruntime)
    {
      hide Filed, Floors, CanRun, Requeued, Good;
      Lengths();
      NotRequeued(threads, t);
      queued, at := false, |queues|;
      if cpu >= |queues| {
        return;
      }
      var ok, place := ChooseCpu(threads[t], cpu);
      if !ok {
        return;
      }
      at := place;
      if !threads[t].ready {
        return;
      }
      if Sits(t, at) {
        return true, at;
      }
      queued := MoveTo(t, at);
    }

    /** A ready thread leaves the queue it may be in and enters another one. */
    method MoveTo(t: nat, at: nat) returns (queued: bool)
      requires Valid() && t in threads && threads[t].ready && at < |queues| && !Sits(t, at)
      modifies this`contents, this`threads, this`floors, queues, set q | q in queues :: q.slots
      ensures Valid() && Rose(old(floors), floors)
      ensures queued <==> !old(threads)[t].running && |old(contents)[at]| < capacity
      ensures Requeued(old(threads), threads, t, at, queued, true)
      ensures t in threads && |old(floors)| == |queues|
      ensures !old(threads)[t].running ==>
                (threads[t].vruntime == if old(threads)[t].vruntime < old(floors)[at] then old(floors)[at] else old(threads)[t].vruntime)
    {
      hide Filed, Floors, CanRun, Queued, Turned, Good;
      Lengths();
      ghost var n := |contents[at]|;
      if threads[t].onRq {
        QueuedAt(contents, threads, t);
        OtherSize(contents, threads[t].lastCpu, t, at);
        Dequeue(t);
      }
      queued := false;
      if !threads[t].running {
        Lengths();
        queued := InsertAt(t, at);
      }
    }

    predicate Sits(t: nat, c: nat)
      reads this
    {
      t in threads && threads[t].onRq && threads[t].lastCpu == c
    }

    /** The best queued thread that the processor may run. */
    method PeekBest(c: nat) returns (found: bool, t: nat)
      requires Valid() && c < |queues|
      ensures found <==> exists u :: u in contents[c] && MayRun(u, c)
      ensures found ==> t in contents[c] && MayRun(t, c)
      ensures found ==> forall u :: u in contents[c] && MayRun(u, c) ==> NoWorse(threads[t], threads[u])
    {
      hide Allowed, Floors, Heap, Less;
      var q := queues[c];
      q.Size();
      if q.count > 0 && Allowed(threads[q.slots[0]], c) {
        t := q.slots[0];
        forall u | u in contents[c]
          ensures !Less(contents[c][u], contents[c][t])
        {
          q.TopLeast(u);
        }
        BestOf(contents[c], threads, t);
        return true, t;
      }
      found, t := ScanBest(q.slots[..q.count], q.keys, threads, c);
      if found { BestOf(contents[c], threads, t); }
    }

    /** The best thread of a list that the processor may run. */
    method ScanBest(order: seq<nat>, keys: Keys, ths: Threads, c: nat) returns (found: bool, t: nat)
      requires forall i :: 0 <= i < |order| ==> order[i] in keys && order[i] in ths
      ensures found <==> exists i :: 0 <= i < |order| && Allowed(ths[order[i]], c)
      ensures found ==> t in order && t in ths && t in keys && Allowed(ths[t], c)
      ensures found ==> forall i :: 0 <= i < |order| && Allowed(ths[order[i]], c) ==> !Less(keys[order[i]], keys[t])
    {
      hide Allowed;
      found, t := false, 0;
      for i := 0 to |order|
        invariant found <==> exists j :: 0 <= j < i && Allowed(ths[order[j]], c)
        invariant found ==> t in order && t in ths && t in keys && Allowed(ths[t], c)
        invariant found ==> forall j :: 0 <= j < i && Allowed(ths[order[j]], c) ==> !Less(keys[order[j]], keys[t])
      {
        var u := order[i];
        if Allowed(ths[u], c) && (!found || Less(keys[u], keys[t])) {
          found, t := true, u;
        }
      }
    }

    ghost predicate MayRun(t: nat, c: nat)
      reads this`threads, this`online
    {
      t in threads && Allowed(threads[t], c)
    }

    /** Takes the best queued thread that the processor may run: the same that `PeekBest` shows. */
    method PopBest(c: nat) returns (found: bool, t: nat)
      requires Valid() && c < |queues|
      modifies this`contents, this`threads, this`floors, queues, set q | q in queues :: q.slots
      ensures Valid() && Rose(old(floors), floors) && threads.Keys == old(threads.Keys)
      ensures found <==> exists u :: u in old(contents)[c] && old(MayRun(u, c))
      ensures found ==> t in old(contents)[c] && old(MayRun(t, c)) && contents == WithoutThread(old(contents), c, t)
      ensures found ==> forall u :: u in old(contents)[c] && old(MayRun(u, c)) ==> NoWorse(old(threads)[t], old(threads)[u])
      ensures found ==> forall u :: u in old(contents)[c] && old(MayRun(u, c)) ==>
                old(threads)[t].vruntime <= old(threads)[u].vruntime
                && (old(threads)[t].vruntime == old(threads)[u].vruntime ==> old(threads)[t].sumExec <= old(threads)[u].sumExec)
                && (old(threads)[t].vruntime == old(threads)[u].vruntime && old(threads)[t].sumExec == old(threads)[u].sumExec ==>
                      old(threads)[t].pid <= old(threads)[u].pid)
      ensures found ==> threads == old(threads)[t := old(threads)[t].(onRq := false)]
      ensures !found ==> contents == old(contents) && threads == old(threads)
    {
      hide Allowed, Floors, Heap;
      found, t := PeekBest(c);
      if found {
        Dequeue(t);
      }
    }

    /** Notes where a thread that is not queued will run. */
    method Relabel(t: nat, c: nat)
      requires Valid() && t in threads && !threads[t].onRq
      modifies this`threads
      ensures Valid() && threads == old(threads)[t := old(threads)[t].(lastCpu := c)]
    {
      hide Filed, Floors;
      FiledTouch(contents, threads, t, threads[t].(lastCpu := c));
      threads := threads[t := threads[t].(lastCpu := c)];
    }

    /** Sends a thread that was just taken from a queue to another processor. */
    method Send(t: nat, target: nat) returns (queued: bool)
      requires Valid() && t in threads && !threads[t].onRq && threads[t].ready && !threads[t].running && target < |queues|
      requires CanRun(threads[t], target)
      modifies this`contents, this`threads, this`floors, queues, set q | q in queues :: q.slots
      ensures Valid() && Rose(old(floors), floors) && queued == (|old(contents)[target]| < capacity)
      ensures queued ==> threads == old(threads)[t := Queued(old(threads)[t], old(floors)[target], target)]
      ensures queued ==> contents == WithThread(old(contents), target, t, KeyOf(threads[t]))
      ensures !queued ==> contents == old(contents)
      ensures !queued ==> threads == old(threads)[t := Turned(old(threads)[t].(lastCpu := target), old(floors)[target])]
    {
      hide Filed, Floors, WithThread, CanRun, Turned, Good;
      Lengths();
      SameMask(threads[t], threads[t].(lastCpu := target), target);
      Relabel(t, target);
      assert RunsSomewhere(threads[t]);
      var at;
      queued, at := Enqueue(t, target);
    }

    /** A ready thread that may run on the processor, or one that may not. */
    predicate Wanted(th: Thread, c: nat, unfit: bool)
      reads this`online
    {
      th.ready && Allowed(th, c) == !unfit
    }

    /** The thread of a list that has run most, among those wanted. */
    method ScanWorst(order: seq<nat>, ths: Threads, c: nat, unfit: bool) returns (found: bool, t: nat)
      requires forall i :: 0 <= i < |order| ==> order[i] in ths
      ensures found <==> exists i :: 0 <= i < |order| && Wanted(ths[order[i]], c, unfit)
      ensures found ==> t in order && t in ths && Wanted(ths[t], c, unfit)
      ensures found ==> forall i :: 0 <= i < |order| && Wanted(ths[order[i]], c, unfit) ==> !Worse(ths[order[i]], ths[t])
    {
      hide Wanted;
      found, t := false, 0;
      for i := 0 to |order|
        invariant found <==> exists j :: 0 <= j < i && Wanted(ths[order[j]], c, unfit)
        invariant found ==> t in order && t in ths && Wanted(ths[t], c, unfit)
        invariant found ==> forall j :: 0 <= j < i && Wanted(ths[order[j]], c, unfit) ==> !Worse(ths[order[j]], ths[t])
      {
        var u := order[i];
        if Wanted(ths[u], c, unfit) && (!found || Worse(ths[u], ths[t])) {
          found, t := true, u;
        }
      }
    }

    ghost predicate WantedHere(t: nat, c: nat, unfit: bool)
      reads this`threads, this`online
    {
      t in threads && Wanted(threads[t], c, unfit)
    }

    /**
     * Takes from one queue the ready thread that has run most among those a processor may run, or may
     * not run.  Exactly the thread it returns leaves the queue.
     */
    method TakeWorst(source: nat, c: nat, unfit: bool) returns (found: bool, t: nat)
      requires Valid() && source < |queues|
      modifies this`contents, this`threads, this`floors, queues, set q | q in queues :: q.slots
      ensures Valid() && Rose(old(floors), floors) && threads.Keys == old(threads.Keys)
      ensures found <==> exists u :: u in old(contents)[source] && old(WantedHere(u, c, unfit))
      ensures found ==> t in old(contents)[source] && t in old(threads) && Wanted(old(threads)[t], c, unfit)
      ensures found ==> contents == WithoutThread(old(contents), source, t)
      ensures found ==> forall u :: u in old(contents)[source] && old(WantedHere(u, c, unfit)) ==>
                old(threads)[u].vruntime <= old(threads)[t].vruntime
                && (old(threads)[u].vruntime == old(threads)[t].vruntime ==> old(threads)[u].pid <= old(threads)[t].pid)
      ensures found ==> threads == old(threads)[t := old(threads)[t].(onRq := false)]
      ensures !found ==> contents == old(contents) && threads == old(threads)
    {
      hide Wanted, Floors, Filed, Good;
      Lengths();
      found, t := FindWorst(source, c, unfit);
      if found {
        FiledIn(contents, threads, source, t);
        Dequeue(t);
      }
    }

    method FindWorst(source: nat, c: nat, unfit: bool) returns (found: bool, t: nat)
      requires Valid() && source < |queues|
      ensures |contents| == |queues|
      ensures found <==> exists u :: u in contents[source] && WantedHere(u, c, unfit)
      ensures found ==> t in contents[source] && WantedHere(t, c, unfit)
      ensures found ==> forall u :: u in contents[source] && WantedHere(u, c, unfit) ==> u in threads && !Worse(threads[u], threads[t])
    {
      hide Wanted, Floors, Heap, Worse, Apart;
      var q := queues[source];
      q.Size();
      found, t := ScanWorst(q.slots[..q.count], threads, c, unfit);
    }
  }

  /** Has run less, counting first virtual runtime, then all runtime, then the number; or the same. */
  predicate NoWorse(a: Thread, b: Thread) {
    && a.vruntime <= b.vruntime && (a.vruntime == b.vruntime ==> a.sumExec <= b.sumExec)
    && (a.vruntime == b.vruntime && a.sumExec == b.sumExec ==> a.pid <= b.pid)
  }

  lemma BestOf(keys: Keys, threads: Threads, t: nat)
    requires t in keys && forall u :: u in keys ==> u in threads && keys[u] == KeyOf(threads[u])
    ensures forall u :: u in keys && !Less(keys[u], keys[t]) ==> NoWorse(threads[t], threads[u])
  {
  }

  /** Has run more; among equals, has the higher number. */
  predicate Worse(a: Thread, b: Thread) {
    a.vruntime > b.vruntime || (a.vruntime == b.vruntime && a.pid > b.pid)
  }

  lemma FiledIn(contents: seq<Keys>, threads: Threads, c: nat, t: nat)
    requires Filed(contents, threads) && c < |contents| && t in contents[c]
    ensures t in threads && threads[t].onRq && threads[t].lastCpu == c
  {
  }

  lemma QueuedAt(contents: seq<Keys>, threads: Threads, t: nat)
    requires Filed(contents, threads) && t in threads && threads[t].onRq
    ensures threads[t].lastCpu < |contents| && t in contents[threads[t].lastCpu] && !threads[t].running
  {
  }

  /** Floors never fall. */
  ghost predicate Rose(before: seq<nat>, after: seq<nat>) {
    |after| == |before| && forall c :: 0 <= c < |before| ==> after[c] >= before[c]
  }
}
