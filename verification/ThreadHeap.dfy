/**
 * The heap itself, in place in an array: insertion, removal of any slot, and the least member.
 * Its contents are a map from threads to their keys.
 */
module ThreadHeap {
  import opened Sets
  import opened HeapOrder

  class IndexedHeap {
    const slots: array<nat>
    var count: nat
    /** The slot of every queued thread. */
    var index: map<nat, nat>
    /** The compared fields of every queued thread. */
    var keys: Keys

    /** Everything but the order. */
    ghost predicate Filed()
      reads this, slots
    {
      count <= slots.Length && Indexed(slots[..count], index, keys) && keys.Keys == index.Keys
    }

    ghost predicate Valid()
      reads this, slots
    {
      Filed() && Heap(slots[..count], keys)
    }

    constructor (capacity: nat)
      ensures Valid() && fresh(slots) && slots.Length == capacity && keys == map[] && count == 0
    {
      slots, count, index, keys := new nat[capacity], 0, map[], map[];
    }

    /** How many threads are queued. */
    lemma Size()
      requires Filed()
      ensures |keys| == count && forall t :: t in keys <==> t in slots[..count]
    {
      hide Heap;
      MembersSize(slots[..count], index, keys);
    }

    lemma QueuedSize()
      requires Valid()
      ensures |keys| == count <= slots.Length
    {
      Size();
    }

    method SwapSlots(i: nat, j: nat)
      requires Filed() && i < count && j < count
      modifies this`index, slots
      ensures Filed() && slots[..count] == Swap(old(slots[..count]), i, j)
    {
      ghost var s := slots[..count];
      SwapIndexed(s, index, keys, i, j);
      var saved := slots[i];
      slots[i] := slots[j];
      slots[j] := saved;
      index := index[slots[i] := i][slots[j] := j];
      assert slots[..count] == Swap(s, i, j);
    }

    /** Lets a slot rise to its place. */
    method SiftUp(i: nat)
      requires Filed() && i < count && HeapUp(slots[..count], keys, i)
      modifies this`index, slots
      ensures Valid()
    {
      hide HeapUp, Heap, Indexed, Less;
      var k: nat := i;
      while k > 0
        invariant Filed() && k < count && HeapUp(slots[..count], keys, k)
      {
        var p := Parent(k);
        ParentChild(k, p);
        Filled(slots[..count], index, keys, k);
        Filled(slots[..count], index, keys, p);
        if !Less(keys[slots[k]], keys[slots[p]]) {
          break;
        }
        UpStep(slots[..count], keys, k);
        SwapSlots(k, p);
        k := p;
      }
      UpDone(slots[..count], keys, k);
    }

    /** Lets a slot sink to its place. */
    method SiftDown(i: nat)
      requires Filed() && HeapDown(slots[..count], keys, i) && i < count
      modifies this`index, slots
      ensures Valid()
    {
      hide HeapDown, Heap, Indexed, Less, Parent;
      var k := i;
      while true
        invariant Filed() && k < count && HeapDown(slots[..count], keys, k)
        decreases count - k
      {
        var best := BestOf(k);
        if best == k {
          NoneBetter(slots[..count], keys, k);
          DownDone(slots[..count], keys, k);
          return;
        }
        DownStep(slots[..count], keys, k, best);
        SwapSlots(k, best);
        k := best;
      }
    }

    /** The least of a slot and its children. */
    method BestOf(k: nat) returns (best: nat)
      requires Filed() && k < count
      ensures k <= best < count && slots[best] in keys && slots[k] in keys
      ensures best != k ==> Parent(best) == k && Less(keys[slots[best]], keys[slots[k]])
      ensures forall j :: 0 < j < count && Parent(j) == k ==> slots[j] in keys && !Less(keys[slots[j]], keys[slots[best]])
    {
      var left, right := 2 * k + 1, 2 * k + 2;
      best := k;
      if left < count && Less(keys[slots[left]], keys[slots[best]]) {
        best := left;
      }
      if right < count && Less(keys[slots[right]], keys[slots[best]]) {
        best := right;
      }
      forall j | 0 < j < count && Parent(j) == k
        ensures j == left || j == right
      {
        ParentChild(j, k);
      }
    }

    /** Queues a thread; fails when every slot is taken. */
    method Insert(t: nat, key: Key) returns (ok: bool)
      requires Valid() && t !in keys
      modifies this, slots
      ensures Valid() && ok == (old(count) < slots.Length)
      ensures keys == if ok then old(keys)[t := key] else old(keys)
      ensures count == if ok then old(count) + 1 else old(count)
    {
      hide Heap, HeapUp, Indexed;
      if count >= slots.Length {
        return false;
      }
      ghost var s := slots[..count];
      Appended(s, index, keys, t, key);
      slots[count] := t;
      index, keys := index[t := count], keys[t := key];
      count := count + 1;
      assert slots[..count] == s + [t];
      SiftUp(count - 1);
      ok := true;
    }

    /** Takes the thread out of slot `i`; the last one takes its place and finds its own. */
    method RemoveAt(i: nat)
      requires Valid() && i < count
      modifies this, slots
      ensures Valid() && count == old(count) - 1
      ensures old(slots[i]) in old(keys) && keys == old(keys) - {old(slots[i])}
    {
      hide Heap, HeapUp, HeapDown, Indexed, Less, Parent;
      ghost var s := slots[..count];
      var gone, last := slots[i], slots[count - 1];
      Filled(s, index, keys, i);
      Removed(s, index, keys, i);
      if i < count - 1 {
        Placed(s, index, keys, i);
      }
      slots[i] := last;
      index, keys := index[last := i] - {gone}, keys - {gone};
      count := count - 1;
      assert slots[..count] == s[i := last][..count];
      if i < count {
        if i > 0 && Less(keys[slots[i]], keys[slots[Parent(i)]]) {
          SiftUp(i);
        } else {
          SiftDown(i);
        }
      }
    }

    /** The same, letting the moved thread sink first and then rise. */
    method Extract(i: nat)
      requires Valid() && i < count
      modifies this, slots
      ensures Valid() && count == old(count) - 1
      ensures old(slots[i]) in old(keys) && keys == old(keys) - {old(slots[i])}
    {
      hide Heap, HeapUp, HeapDown, Indexed, Less, Parent;
      ghost var s := slots[..count];
      var gone, last := slots[i], slots[count - 1];
      Filled(s, index, keys, i);
      Removed(s, index, keys, i);
      if i < count - 1 {
        Placed(s, index, keys, i);
      }
      slots[i] := last;
      index, keys := index[last := i] - {gone}, keys - {gone};
      count := count - 1;
      assert slots[..count] == s[i := last][..count];
      if i < count {
        Settle(i);
        SiftUp(i);
      }
    }

    /** Lets a slot sink that may also have to rise: then it stays where it is. */
    method Settle(i: nat)
      requires Filed() && i < count && (HeapDown(slots[..count], keys, i) || HeapUp(slots[..count], keys, i))
      modifies this`index, slots
      ensures Filed() && HeapUp(slots[..count], keys, i)
    {
      hide HeapDown, HeapUp, Heap, Indexed, Less, Parent;
      var best := BestOf(i);
      if best == i {
        StaysUp(slots[..count], keys, i);
        return;
      }
      MustSink(slots[..count], keys, i, best);
      SiftDown(i);
      AlsoUp(slots[..count], keys, i);
    }

    /** Takes out a queued thread. */
    method Remove(t: nat)
      requires Valid() && t in keys
      modifies this, slots
      ensures Valid() && count == old(count) - 1 && keys == old(keys) - {t}
    {
      hide Heap, Less;
      RemoveAt(index[t]);
    }

    /** Takes out a queued thread, letting the one that replaces it sink first. */
    method Discard(t: nat)
      requires Valid() && t in keys
      modifies this, slots
      ensures Valid() && count == old(count) - 1 && keys == old(keys) - {t}
    {
      hide Heap, Less;
      Extract(index[t]);
    }

    /** A least thread and its key. */
    method Least() returns (t: nat, key: Key)
      requires Valid() && count > 0
      ensures t in keys && key == keys[t] && forall u :: u in keys ==> !Less(keys[u], key)
    {
      t := slots[0];
      key := keys[t];
      forall u | u in keys
        ensures !Less(keys[u], key)
      {
        TopLeast(u);
      }
    }

    /** The thread in the first slot is least. */
    lemma TopLeast(t: nat)
      requires Valid() && t in keys
      ensures count > 0 && slots[0] in keys && !Less(keys[t], keys[slots[0]])
    {
      TopIsLeast(slots[..count], keys, index[t]);
    }
  }

  lemma StaysUp(s: seq<nat>, keys: Keys, i: nat)
    requires i < |s| && s[i] in keys && (HeapDown(s, keys, i) || HeapUp(s, keys, i))
    requires forall j :: 0 < j < |s| && Parent(j) == i ==> s[j] in keys && !Less(keys[s[j]], keys[s[i]])
    ensures HeapUp(s, keys, i)
  {
    if HeapDown(s, keys, i) {
      NoneBetter(s, keys, i);
    }
  }

  lemma MustSink(s: seq<nat>, keys: Keys, i: nat, b: nat)
    requires HeapDown(s, keys, i) || HeapUp(s, keys, i)
    requires i < b < |s| && Parent(b) == i && s[b] in keys && s[i] in keys && Less(keys[s[b]], keys[s[i]])
    ensures HeapDown(s, keys, i)
  {
    assert !Fine(s, keys, b);
  }

  lemma AlsoUp(s: seq<nat>, keys: Keys, i: nat)
    requires Heap(s, keys) && i < |s|
    ensures HeapUp(s, keys, i)
  {
    forall j | 0 < i < j < |s| && Parent(j) == i
      ensures Skips(s, keys, j, i)
    {
      assert Fine(s, keys, j) && Fine(s, keys, i);
    }
  }

  /** A new last slot may be out of order with its parent only. */
  lemma Appended(s: seq<nat>, index: map<nat, nat>, keys: Keys, t: nat, key: Key)
    requires Indexed(s, index, keys) && Heap(s, keys) && keys.Keys == index.Keys && t !in keys
    ensures Indexed(s + [t], index[t := |s|], keys[t := key]) && HeapUp(s + [t], keys[t := key], |s|)
  {
    var n, k := s + [t], keys[t := key];
    forall j | 0 < j < |n| && j != |s|
      ensures Fine(n, k, j)
    {
      assert Fine(s, keys, j);
    }
  }

  lemma Removed(s: seq<nat>, index: map<nat, nat>, keys: Keys, i: nat)
    requires Indexed(s, index, keys) && Heap(s, keys) && keys.Keys == index.Keys && i < |s|
    ensures var last := s[|s| - 1];
            var n := s[i := last][..|s| - 1];
            && Indexed(n, index[last := i] - {s[i]}, keys - {s[i]})
            && (index[last := i] - {s[i]}).Keys == (keys - {s[i]}).Keys
            && (i == |s| - 1 ==> Heap(n, keys - {s[i]}))
  {
    var last, gone := s[|s| - 1], s[i];
    var n := s[i := last][..|s| - 1];
    if i == |s| - 1 {
      forall j | 0 < j < |n|
        ensures Fine(n, keys - {gone}, j)
      {
        assert Fine(s, keys, j);
      }
    }
  }

  /** With the last thread in slot `i`, the heap is in order but around that slot. */
  lemma Placed(s: seq<nat>, index: map<nat, nat>, keys: Keys, i: nat)
    requires Indexed(s, index, keys) && Heap(s, keys) && i < |s| - 1
    ensures var n := s[i := s[|s| - 1]][..|s| - 1];
            var k: Keys := keys - {s[i]};
            && n[i] in k && (i > 0 ==> Parent(i) < |n| && n[Parent(i)] in k)
            && (if i > 0 && Less(k[n[i]], k[n[Parent(i)]]) then HeapUp(n, k, i) else HeapDown(n, k, i))
  {
    var last := s[|s| - 1];
    var n := s[i := last][..|s| - 1];
    var k: Keys := keys - {s[i]};
    if i > 0 {
      ParentChild(i, Parent(i));
      assert Fine(s, keys, i);
    }
    forall j | 0 < j < |n|
      ensures j != i && Parent(j) != i ==> Fine(n, k, j)
      ensures j != i && Parent(j) == i ==> n[j] in k && !Less(keys[n[j]], keys[s[i]])
    {
      ParentChild(j, Parent(j));
      assert Fine(s, keys, j);
    }
  }

  lemma Filled(s: seq<nat>, index: map<nat, nat>, keys: Keys, k: nat)
    requires Indexed(s, index, keys) && k < |s|
    ensures s[k] in keys && s[k] in index && index[s[k]] == k
  {
  }

  lemma NoneBetter(s: seq<nat>, keys: Keys, k: nat)
    requires k < |s| && s[k] in keys
    requires forall j :: 0 < j < |s| && Parent(j) == k ==> s[j] in keys && !Less(keys[s[j]], keys[s[k]])
    ensures forall j :: 0 < j < |s| && Parent(j) == k ==> Fine(s, keys, j)
  {
  }

  lemma MembersSize(s: seq<nat>, index: map<nat, nat>, keys: Keys)
    requires Indexed(s, index, keys) && keys.Keys == index.Keys
    ensures |keys| == |s| && forall t :: t in keys <==> t in s
  {
    SetOfSize(s);
    assert keys.Keys == SetOf(s);
    KeysSize(keys);
  }

  lemma KeysSize(keys: Keys)
    ensures |keys| == |keys.Keys|
  {
  }
}
