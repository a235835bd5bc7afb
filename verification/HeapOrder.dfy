/**
 * Binary heaps of thread numbers in an array, ordered by a key of each thread, where every thread
 * knows its slot.  Everything here is about the slots as a sequence.
 */
module HeapOrder {
  /** Compared field by field: the first that differs decides. */
  datatype Key = Key(a: nat, b: nat, c: nat)

  type Keys = map<nat, Key>

  predicate Less(x: Key, y: Key) {
    x.a < y.a || (x.a == y.a && (x.b < y.b || (x.b == y.b && x.c < y.c)))
  }

  function Parent(j: nat): nat
    requires j > 0
  {
    (j - 1) / 2
  }

  lemma ParentChild(j: nat, i: nat)
    requires j > 0
    ensures Parent(j) < j && (Parent(j) == i <==> j == 2 * i + 1 || j == 2 * i + 2)
  {
  }

  /** The slots in use hold known threads, and each thread's index is its slot. */
  ghost predicate Indexed(s: seq<nat>, index: map<nat, nat>, keys: Keys) {
    && (forall i :: 0 <= i < |s| ==> s[i] in index && index[s[i]] == i && s[i] in keys)
    && forall t :: t in index ==> index[t] < |s| && s[index[t]] == t
  }

  /** Slot `j` is in order with its parent. */
  predicate Fine(s: seq<nat>, keys: Keys, j: nat)
    requires 0 < j < |s|
  {
    var p := s[Parent(j)];
    s[j] in keys && p in keys && !Less(keys[s[j]], keys[p])
  }

  ghost predicate Heap(s: seq<nat>, keys: Keys) {
    forall j :: 0 < j < |s| ==> Fine(s, keys, j)
  }

  /** In order but for slot `i` and its parent; below `i` everything is in order with that parent. */
  ghost predicate HeapUp(s: seq<nat>, keys: Keys, i: nat) {
    && (forall j :: 0 < j < |s| && j != i ==> Fine(s, keys, j))
    && forall j :: 0 < i < j < |s| && Parent(j) == i ==> Skips(s, keys, j, i)
  }

  /** In order but for the children of slot `i`, which are in order with its parent. */
  ghost predicate HeapDown(s: seq<nat>, keys: Keys, i: nat) {
    && (forall j :: 0 < j < |s| && Parent(j) != i ==> Fine(s, keys, j))
    && forall j :: 0 < i < j < |s| && Parent(j) == i ==> Skips(s, keys, j, i)
  }

  /** Slot `j`, a child of `i`, is in order with the parent of `i`. */
  predicate Skips(s: seq<nat>, keys: Keys, j: nat, i: nat)
    requires 0 < i < |s| && j < |s|
  {
    var p := s[Parent(i)];
    s[j] in keys && p in keys && !Less(keys[s[j]], keys[p])
  }

  function Swap(s: seq<nat>, i: nat, j: nat): (n: seq<nat>)
    requires i < |s| && j < |s|
    ensures |n| == |s|
  {
    s[i := s[j]][j := s[i]]
  }

  lemma SwapIndexed(s: seq<nat>, index: map<nat, nat>, keys: Keys, i: nat, j: nat)
    requires Indexed(s, index, keys) && i < |s| && j < |s|
    ensures Indexed(Swap(s, i, j), index[s[j] := i][s[i] := j], keys)
    ensures index[s[j] := i][s[i] := j].Keys == index.Keys
  {
  }

  /** Moving a slot that is less than its parent up one level. */
  lemma UpStep(s: seq<nat>, keys: Keys, i: nat)
    requires HeapUp(s, keys, i) && 0 < i < |s| && s[i] in keys && s[Parent(i)] in keys
    requires Less(keys[s[i]], keys[s[Parent(i)]])
    ensures HeapUp(Swap(s, i, Parent(i)), keys, Parent(i))
  {
    var p := Parent(i);
    var n := Swap(s, i, p);
    forall j | 0 < j < |n| && j != p
      ensures Fine(n, keys, j)
    {
      ParentChild(j, i);
      ParentChild(j, p);
      ParentChild(i, p);
      if j != i && Parent(j) == i {
        assert Skips(s, keys, j, i);
      } else if j != i {
        assert Fine(s, keys, j);
      }
    }
    forall j | 0 < p < j < |n| && Parent(j) == p
      ensures Skips(n, keys, j, p)
    {
      ParentChild(p, Parent(p));
      assert Fine(s, keys, p);
      if j != i {
        assert Fine(s, keys, j);
      }
    }
  }

  lemma UpDone(s: seq<nat>, keys: Keys, i: nat)
    requires HeapUp(s, keys, i) && (0 < i < |s| ==> Fine(s, keys, i))
    ensures Heap(s, keys)
  {
  }

  /** Moving a slot that is more than its best child down one level. */
  lemma DownStep(s: seq<nat>, keys: Keys, i: nat, b: nat)
    requires HeapDown(s, keys, i) && i < b < |s| && Parent(b) == i && s[i] in keys && s[b] in keys
    requires Less(keys[s[b]], keys[s[i]])
    requires forall j :: 0 < j < |s| && Parent(j) == i ==> s[j] in keys && !Less(keys[s[j]], keys[s[b]])
    ensures HeapDown(Swap(s, i, b), keys, b)
  {
    var n := Swap(s, i, b);
    forall j | 0 < j < |n| && Parent(j) != b
      ensures Fine(n, keys, j)
    {
      ParentChild(j, i);
      ParentChild(j, b);
      if Parent(j) != i {
        assert Fine(s, keys, j);
        if j == i {
          assert Skips(s, keys, b, i);
        }
      }
    }
    forall j | 0 < b < j < |n| && Parent(j) == b
      ensures Skips(n, keys, j, b)
    {
      ParentChild(j, i);
      assert Fine(s, keys, j);
    }
  }

  lemma DownDone(s: seq<nat>, keys: Keys, i: nat)
    requires HeapDown(s, keys, i) && forall j :: 0 < j < |s| && Parent(j) == i ==> Fine(s, keys, j)
    ensures Heap(s, keys)
  {
  }

  /** Nothing in a heap is less than its first slot. */
  lemma {:induction false} TopIsLeast(s: seq<nat>, keys: Keys, j: nat)
    requires Heap(s, keys) && j < |s| && s[0] in keys
    ensures s[j] in keys && !Less(keys[s[j]], keys[s[0]])
  {
    if j > 0 {
      assert Fine(s, keys, j);
      TopIsLeast(s, keys, Parent(j));
    }
  }
}
