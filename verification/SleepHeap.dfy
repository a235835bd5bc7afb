/**
 * Threads that sleep until a deadline: a heap ordered by wake tick, and the timer that drains it.
 */
module SleepHeap {
  import opened Sets
  import opened HeapOrder
  import opened ThreadHeap
  import SleepMutex

  datatype Outcome = Pending | TimedOut

  /** A thread that may sleep: whether it does, on which wait queue, and what a wait returned. */
  datatype Sleeper = Sleeper(pid: nat, asleep: bool, waits: bool, queue: nat, result: Outcome)

  type Sleepers = map<nat, Sleeper>

  /** Each wait queue holds exactly the threads that say they wait on it, each once. */
  ghost predicate Listed(lists: map<nat, seq<nat>>, sleepers: Sleepers) {
    && (forall q :: q in lists ==> NoRepeats(lists[q]))
    && (forall q, t :: q in lists && t in lists[q] ==> t in sleepers && sleepers[t].waits && sleepers[t].queue == q)
    && forall t :: t in sleepers && sleepers[t].waits ==> sleepers[t].queue in lists && t in lists[sleepers[t].queue]
  }

  /** A timed-out thread is off its queue and awake. */
  function Woken(s: Sleeper): (n: Sleeper)
    ensures !n.asleep && n.pid == s.pid && n.queue == s.queue
    ensures s.asleep ==> !n.waits && n.result == TimedOut
    ensures !s.asleep ==> n == s
  {
    if s.asleep then s.(asleep := false, waits := false, result := TimedOut) else s
  }

  /** Those of a wait queue that still wait, in the same order. */
  function Staying(list: seq<nat>, sleepers: Sleepers): seq<nat> {
    if list == [] then []
    else (if list[0] in sleepers && sleepers[list[0]].waits then [list[0]] else []) + Staying(list[1..], sleepers)
  }

  lemma {:induction false} AllStay(list: seq<nat>, sleepers: Sleepers)
    requires forall t :: t in list ==> t in sleepers && sleepers[t].waits
    ensures Staying(list, sleepers) == list
  {
    if list != [] {
      assert forall t :: t in list[1..] ==> t in list;
      AllStay(list[1..], sleepers);
    }
  }

  /** A thread that waits no longer leaves its place. */
  lemma {:induction false} OneLeaves(list: seq<nat>, sleepers: Sleepers, t: nat, s: Sleeper)
    requires NoRepeats(list) && !s.waits && forall u :: u in list ==> u in sleepers && sleepers[u].waits
    ensures Staying(list, sleepers[t := s]) == SleepMutex.Remove(list, t)
  {
    if list != [] {
      var rest := list[1..];
      assert list == [list[0]] + rest;
      SleepMutex.NoRepeatsCons(list[0], rest);
      assert forall u :: u in rest ==> u in list;
      if list[0] == t {
        AllStay(rest, sleepers[t := s]);
      } else {
        OneLeaves(rest, sleepers, t, s);
      }
    }
  }

  /** Those who stay in the end are among those who stayed on the way. */
  lemma {:induction false} StayAgain(list: seq<nat>, a: Sleepers, b: Sleepers)
    requires forall t :: t in b && b[t].waits ==> t in a && a[t].waits
    ensures Staying(Staying(list, a), b) == Staying(list, b)
  {
    if list != [] {
      var x, rest := list[0], Staying(list[1..], a);
      StayAgain(list[1..], a, b);
      if x in a && a[x].waits {
        assert ([x] + rest)[1..] == rest;
      } else {
        assert Staying(list, a) == rest;
      }
    }
  }

  /** Every wait queue holds those of it who still wait, in the same order. */
  ghost predicate InOrder(before: map<nat, seq<nat>>, after: map<nat, seq<nat>>, sleepers: Sleepers) {
    forall q :: q in before ==> q in after && after[q] == Staying(before[q], sleepers)
  }

  lemma InOrderMore(lists0: map<nat, seq<nat>>, lists1: map<nat, seq<nat>>, s1: Sleepers, lists: map<nat, seq<nat>>, s: Sleepers)
    requires InOrder(lists0, lists1, s1) && InOrder(lists1, lists, s) && forall t :: t in s && s[t].waits ==> t in s1 && s1[t].waits
    ensures InOrder(lists0, lists, s)
  {
    hide Staying;
    forall q | q in lists0
      ensures q in lists && lists[q] == Staying(lists0[q], s)
    {
      StayAgain(lists0[q], s1, s);
    }
  }

  lemma ListedFacts(lists: map<nat, seq<nat>>, sleepers: Sleepers, q: nat)
    requires Listed(lists, sleepers) && q in lists
    ensures NoRepeats(lists[q]) && forall u :: u in lists[q] ==> u in sleepers && sleepers[u].waits
  {
    hide NoRepeats;
  }

  /** All wait queues keep their order but for the thread that left. */
  lemma ExpireStays(lists: map<nat, seq<nat>>, sleepers: Sleepers, t: nat, s: Sleeper, q: nat)
    requires Listed(lists, sleepers) && t in sleepers && q in lists && (!s.waits || s.waits == sleepers[t].waits)
    ensures Staying(lists[q], sleepers[t := s]) == if t in lists[q] && !s.waits then SleepMutex.Remove(lists[q], t) else lists[q]
  {
    hide Listed, NoRepeats, SleepMutex.Remove;
    ListedFacts(lists, sleepers, q);
    OnOneQueue(lists, sleepers, t, q);
    if t in lists[q] && !s.waits {
      OneLeaves(lists[q], sleepers, t, s);
    } else {
      AllStay(lists[q], sleepers[t := s]);
    }
  }

  lemma ListedDequeue(lists: map<nat, seq<nat>>, sleepers: Sleepers, t: nat, s: Sleeper)
    requires Listed(lists, sleepers) && t in sleepers && sleepers[t].waits && !s.waits
    ensures sleepers[t].queue in lists
    ensures var q := sleepers[t].queue;
            Listed(lists[q := SleepMutex.Remove(lists[q], t)], sleepers[t := s])
  {
    var q := sleepers[t].queue;
    SleepMutex.RemoveFacts(lists[q], t);
    hide SleepMutex.Remove, NoRepeats;
  }

  lemma AllWait(lists: map<nat, seq<nat>>, sleepers: Sleepers)
    requires Listed(lists, sleepers)
    ensures InOrder(lists, lists, sleepers)
  {
    forall q | q in lists
      ensures lists[q] == Staying(lists[q], sleepers)
    {
      AllStay(lists[q], sleepers);
    }
  }

  lemma FewerWait(sleepers: Sleepers, t: nat)
    requires t in sleepers
    ensures forall u :: u in sleepers[t := Woken(sleepers[t])] && sleepers[t := Woken(sleepers[t])][u].waits ==> u in sleepers && sleepers[u].waits
  {
  }

  lemma OnOneQueue(lists: map<nat, seq<nat>>, sleepers: Sleepers, t: nat, q: nat)
    requires Listed(lists, sleepers) && t in sleepers && q in lists
    ensures t in lists[q] <==> sleepers[t].waits && sleepers[t].queue == q
  {
  }

  lemma ListedTouch(lists: map<nat, seq<nat>>, sleepers: Sleepers, t: nat, s: Sleeper)
    requires Listed(lists, sleepers) && t in sleepers && s.waits == sleepers[t].waits && s.queue == sleepers[t].queue
    ensures Listed(lists, sleepers[t := s])
  {
  }

  class Timer {
    const heap: IndexedHeap
    var sleepers: Sleepers
    /** The wait queues, each in the order of arrival. */
    var lists: map<nat, seq<nat>>

    /** Queued threads are known, have a deadline, and are ordered by it, then by number. */
    ghost predicate Valid()
      reads this, heap, heap.slots
    {
      && heap.Valid() && Listed(lists, sleepers)
      && forall t :: t in heap.keys ==> t in sleepers && heap.keys[t] == Key(heap.keys[t].a, sleepers[t].pid, 0) && heap.keys[t].a > 0
    }

    constructor (capacity: nat)
      ensures Valid() && fresh(heap) && fresh(heap.slots) && heap.keys == map[] && sleepers == map[] && lists == map[]
    {
      heap := new IndexedHeap(capacity);
      sleepers, lists := map[], map[];
    }

    /** Arms a deadline, replacing an earlier one; fails when the heap is full. */
    method Arm(t: nat, deadline: nat) returns (ok: bool)
      requires Valid() && t in sleepers && deadline > 0
      modifies heap, heap.slots
      ensures Valid() && (ok <==> |old(heap.keys) - {t}| < heap.slots.Length)
      ensures heap.keys == if ok then (old(heap.keys) - {t})[t := Key(deadline, sleepers[t].pid, 0)] else old(heap.keys) - {t}
    {
      hide IndexedHeap.Valid, IndexedHeap.Filed, Listed;
      Disarm(t);
      heap.QueuedSize();
      ok := heap.Insert(t, Key(deadline, sleepers[t].pid, 0));
    }

    /** Disarms a deadline, if there is one. */
    method Disarm(t: nat)
      requires Valid()
      modifies heap, heap.slots
      ensures Valid() && heap.keys == old(heap.keys) - {t}
    {
      hide IndexedHeap.Valid, IndexedHeap.Filed, Listed;
      if t in heap.keys {
        heap.Discard(t);
      }
    }

    /** A due thread: off its wait queue and awake with a timeout, if it was asleep. */
    method Expire(t: nat)
      requires Valid() && t in sleepers && t !in heap.keys
      modifies this`sleepers, this`lists
      ensures Valid() && sleepers == old(sleepers)[t := Woken(old(sleepers)[t])]
      ensures InOrder(old(lists), lists, sleepers)
    {
      hide IndexedHeap.Valid, Listed;
      var s := sleepers[t];
      forall q | q in lists
        ensures Staying(lists[q], sleepers[t := Woken(s)]) == if q == s.queue && s.asleep && s.waits then SleepMutex.Remove(lists[q], t) else lists[q]
      {
        ExpireStays(lists, sleepers, t, Woken(s), q);
        OnOneQueue(lists, sleepers, t, q);
      }
      if s.asleep {
        if s.waits {
          ListedDequeue(lists, sleepers, t, Woken(s));
          lists := lists[s.queue := SleepMutex.Remove(lists[s.queue], t)];
        } else {
          ListedTouch(lists, sleepers, t, Woken(s));
        }
        sleepers := sleepers[t := Woken(s)];
      } else {
        assert sleepers[t := s] == sleepers;
      }
    }

    /**
     * The timer tick: every thread whose deadline has come leaves the heap, and those asleep leave
     * their wait queues with a timeout.  Everybody else sleeps on.
     */
    method WakeSleepers(now: nat)
      requires Valid()
      modifies this`sleepers, this`lists, heap, heap.slots
      ensures Valid() && heap.keys == Later(old(heap.keys), now)
      ensures sleepers.Keys == old(sleepers.Keys)
      ensures forall t :: t in old(heap.keys) && old(heap.keys)[t].a <= now ==> t in sleepers && sleepers[t] == Woken(old(sleepers)[t])
      ensures forall t :: t in sleepers && !(t in old(heap.keys) && old(heap.keys)[t].a <= now) ==> sleepers[t] == old(sleepers)[t]
      ensures forall t :: t in heap.keys <==> t in old(heap.keys) && old(heap.keys)[t].a > now
      ensures forall t :: t in heap.keys ==> heap.keys[t] == old(heap.keys)[t]
      ensures InOrder(old(lists), lists, sleepers)
    {
      hide IndexedHeap.Valid, IndexedHeap.Filed, Listed, Woken, InOrder;
      ghost var keys0, s0, lists0 := heap.keys, sleepers, lists;
      AllWait(lists, sleepers);
      heap.QueuedSize();
      while heap.count > 0
        invariant Valid() && |heap.keys| == heap.count && Draining(keys0, heap.keys, now) && Expired(keys0, heap.keys, s0, sleepers)
        invariant InOrder(lists0, lists, sleepers)
        decreases heap.count
      {
        var t, key := heap.Least();
        if key.a > now {
          break;
        }
        ghost var keys1, s1, lists1 := heap.keys, sleepers, lists;
        heap.Discard(t);
        heap.QueuedSize();
        Expire(t);
        ExpiredMore(keys0, keys1, s0, s1, t, now);
        FewerWait(s1, t);
        InOrderMore(lists0, lists1, s1, lists, sleepers);
      }
      heap.QueuedSize();
      Drained(keys0, heap.keys, now);
    }
  }

  /** The part of the heap that is not due. */
  ghost function Later(keys: Keys, now: nat): Keys {
    map t | t in keys && keys[t].a > now :: keys[t]
  }

  /** Only due threads have left. */
  ghost predicate Draining(keys0: Keys, keys: Keys, now: nat) {
    && (forall t :: t in keys ==> t in keys0 && keys[t] == keys0[t])
    && forall t :: t in keys0 && keys0[t].a > now ==> t in keys
  }

  ghost predicate Expired(keys0: Keys, keys: Keys, s0: Sleepers, s: Sleepers) {
    && s.Keys == s0.Keys
    && forall t :: t in s ==> s[t] == if t in keys0 && t !in keys then Woken(s0[t]) else s0[t]
  }

  lemma ExpiredMore(keys0: Keys, keys: Keys, s0: Sleepers, s: Sleepers, t: nat, now: nat)
    requires Draining(keys0, keys, now) && Expired(keys0, keys, s0, s) && t in keys && t in s && keys[t].a <= now
    ensures Draining(keys0, keys - {t}, now) && Expired(keys0, keys - {t}, s0, s[t := Woken(s[t])])
  {
    hide Woken;
  }

  lemma Drained(keys0: Keys, keys: Keys, now: nat)
    requires Draining(keys0, keys, now) && forall t :: t in keys ==> keys[t].a > now
    ensures keys == Later(keys0, now)
  {
  }
}
