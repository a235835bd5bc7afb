/**
 * Climbing from directory to directory by `..`.  A directory may move anywhere but below itself:
 * exactly then everything stays within reach of the root.
 */
module Ancestry {
  import opened DirRecords
  import opened LinkCounts
  import opened Namespace

  /** Where `k` steps up from `d` lead. */
  ghost function Climb(ns: Nodes, d: nat, k: nat): nat {
    if k == 0 then d else Up(ns, Climb(ns, d, k - 1))
  }

  /** Directory `c` is `d` or above it. */
  ghost predicate Above(ns: Nodes, d: nat, c: nat) {
    exists k: nat :: Climb(ns, d, k) == c
  }

  /** Every directory that has not been removed is below the root. */
  ghost predicate Rooted(ns: Nodes, root: nat) {
    forall d :: Linked(ns, d) ==> Above(ns, d, root)
  }

  lemma {:induction false} ClimbSum(ns: Nodes, d: nat, j: nat, k: nat)
    ensures Climb(ns, d, j + k) == Climb(ns, Climb(ns, d, j), k)
  {
    if k > 0 { ClimbSum(ns, d, j, k - 1); }
  }

  lemma ParentLinked(ns: Nodes, root: nat, d: nat)
    requires Tree(ns, root) && Linked(ns, d)
    ensures Linked(ns, Up(ns, d))
  {
    hide Up;
    if d != root {
      var n :| Named(ns, Up(ns, d), n, d);
    }
  }

  lemma {:induction false} ClimbLinked(ns: Nodes, root: nat, d: nat, k: nat)
    requires Tree(ns, root) && Linked(ns, d)
    ensures Linked(ns, Climb(ns, d, k))
  {
    hide Tree, Up, Linked;
    if k > 0 {
      ClimbLinked(ns, root, d, k - 1);
      ParentLinked(ns, root, Climb(ns, d, k - 1));
    }
  }

  /** The same steps in two tables that agree on the way. */
  lemma {:induction false} ClimbSame(ns: Nodes, ms: Nodes, d: nat, k: nat)
    requires forall i: nat :: i < k ==> Up(ms, Climb(ns, d, i)) == Up(ns, Climb(ns, d, i))
    ensures Climb(ms, d, k) == Climb(ns, d, k)
  {
    hide Up;
    if k > 0 { ClimbSame(ns, ms, d, k - 1); }
  }

  /** Nothing that is linked gets another parent, and what is new hangs below something linked. */
  lemma RootedKept(ns: Nodes, ms: Nodes, root: nat)
    requires Tree(ns, root) && Rooted(ns, root)
    requires forall x :: Linked(ns, x) ==> Up(ms, x) == Up(ns, x)
    requires forall x :: Linked(ms, x) ==> Linked(ns, x) || Linked(ns, Up(ms, x))
    ensures Rooted(ms, root)
  {
    hide Tree, Up, Linked, Climb;
    forall d | Linked(ms, d)
      ensures Above(ms, d, root)
    {
      if Linked(ns, d) {
        StillAbove(ns, ms, root, d);
      } else {
        StillAbove(ns, ms, root, Up(ms, d));
        StepBelow(ms, d, root);
      }
    }
  }

  lemma StillAbove(ns: Nodes, ms: Nodes, root: nat, d: nat)
    requires Tree(ns, root) && Linked(ns, d) && Above(ns, d, root) && forall x :: Linked(ns, x) ==> Up(ms, x) == Up(ns, x)
    ensures Above(ms, d, root)
  {
    hide Tree, Up, Linked, Climb;
    var k: nat :| Climb(ns, d, k) == root;
    forall i: nat | i < k
      ensures Up(ms, Climb(ns, d, i)) == Up(ns, Climb(ns, d, i))
    {
      ClimbLinked(ns, root, d, i);
    }
    ClimbSame(ns, ms, d, k);
  }

  lemma StepBelow(ns: Nodes, d: nat, c: nat)
    requires Above(ns, Up(ns, d), c)
    ensures Above(ns, d, c)
  {
    hide Up;
    var k: nat :| Climb(ns, Up(ns, d), k) == c;
    assert Climb(ns, d, 1) == Up(ns, d) by { assert Climb(ns, d, 0) == d; }
    ClimbSum(ns, d, 1, k);
  }

  /** The first time the way up from `d` comes to `c`. */
  lemma {:induction false} First(ns: Nodes, d: nat, c: nat, k: nat) returns (j: nat)
    requires Climb(ns, d, k) == c
    ensures j <= k && Climb(ns, d, j) == c && forall i: nat :: i < j ==> Climb(ns, d, i) != c
    decreases k
  {
    hide Climb;
    if i: nat :| i < k && Climb(ns, d, i) == c {
      j := First(ns, d, c, i);
    } else {
      j := k;
    }
  }

  /** Once at the root, always at the root. */
  lemma {:induction false} RootStays(ns: Nodes, root: nat, d: nat, j: nat, k: nat)
    requires Up(ns, root) == root && Climb(ns, d, j) == root && j <= k
    ensures Climb(ns, d, k) == root
    decreases k
  {
    hide Up;
    if j < k { RootStays(ns, root, d, j, k - 1); }
  }

  /** Only `c` gets another parent. */
  ghost predicate Rehangs(ns: Nodes, ms: Nodes, q: nat, c: nat) {
    Up(ms, c) == q && forall x :: x != c ==> Up(ms, x) == Up(ns, x)
  }

  lemma WayUnchanged(ns: Nodes, ms: Nodes, q: nat, c: nat, d: nat, k: nat)
    requires Rehangs(ns, ms, q, c) && forall i: nat :: i < k ==> Climb(ns, d, i) != c
    ensures Climb(ms, d, k) == Climb(ns, d, k)
  {
    hide Up, Climb;
    ClimbSame(ns, ms, d, k);
  }

  /** A directory that moves to a place not below itself stays within reach, with all that is below it. */
  lemma ReachesAfter(ns: Nodes, ms: Nodes, root: nat, q: nat, c: nat, d: nat)
    requires Rehangs(ns, ms, q, c) && Above(ns, q, root) && !Above(ns, q, c) && Above(ns, d, root)
    ensures Above(ms, d, root)
  {
    hide Up, Climb, Rehangs;
    var kq: nat :| Climb(ns, q, kq) == root;
    WayUnchanged(ns, ms, q, c, q, kq);
    var k: nat :| Climb(ns, d, k) == root;
    if i: nat :| i < k && Climb(ns, d, i) == c {
      var j := First(ns, d, c, i);
      WayUnchanged(ns, ms, q, c, d, j);
      NextUp(ns, ms, q, c, d, j);
      ClimbSum(ms, d, j + 1, kq);
    } else {
      WayUnchanged(ns, ms, q, c, d, k);
    }
  }

  lemma NextUp(ns: Nodes, ms: Nodes, q: nat, c: nat, d: nat, j: nat)
    requires Rehangs(ns, ms, q, c) && Climb(ms, d, j) == c
    ensures Climb(ms, d, j + 1) == q
  {
    hide Up;
  }

  /** A directory that moves below itself goes round in a circle. */
  lemma {:induction false} Circle(ns: Nodes, ms: Nodes, root: nat, q: nat, c: nat, j: nat, k: nat) returns (i: nat)
    requires Rehangs(ns, ms, q, c) && Climb(ns, q, j) == c && forall x: nat :: x < j ==> Climb(ns, q, x) != c
    ensures i <= j && Climb(ms, q, k) == Climb(ns, q, i)
    decreases k
  {
    hide Up;
    if k == 0 {
      i := 0;
    } else {
      i := Circle(ns, ms, root, q, c, j, k - 1);
      if i == j {
        i := 0;
      } else {
        assert Climb(ns, q, i) != c;
        i := i + 1;
      }
    }
  }

  lemma OutOfReach(ns: Nodes, ms: Nodes, root: nat, q: nat, c: nat)
    requires Rehangs(ns, ms, q, c) && Above(ns, q, c) && Up(ns, root) == root && c != root
    ensures !Above(ms, c, root)
  {
    hide Up, Climb, Rehangs;
    var k0: nat :| Climb(ns, q, k0) == c;
    var j := First(ns, q, c, k0);
    if Above(ms, c, root) {
      var k: nat :| Climb(ms, c, k) == root;
      ClimbZero(ms, c);
      assert k > 0;
      NextUp(ns, ms, q, c, c, 0);
      ClimbSum(ms, c, 1, k - 1);
      var i := Circle(ns, ms, root, q, c, j, k - 1);
      RootStays(ns, root, q, i, j);
      assert false;
    }
  }

  lemma ClimbZero(ns: Nodes, d: nat)
    ensures Climb(ns, d, 0) == d
  {
  }

  /** A move of a directory keeps everything within reach of the root exactly when it does not go below itself. */
  lemma MoveRooted(ns: Nodes, ms: Nodes, root: nat, p: nat, n: Name, q: nat, l: Name, c: nat)
    requires Tree(ns, root) && Rooted(ns, root) && Named(ns, p, n, c) && IsDir(ns, c) && Linked(ns, q) && !Named(ns, q, l, c)
    requires Moved(ns, ms, p, n, q, l, c)
    ensures Rooted(ms, root) <==> !Above(ns, q, c)
  {
    MovedFacts(ns, ms, root, p, n, q, l, c);
    hide Tree, Moved, Up, Linked, Named, IsDir, Climb;
    if Above(ns, q, c) {
      OutOfReach(ns, ms, root, q, c);
    } else {
      forall d | Linked(ms, d)
        ensures Above(ms, d, root)
      {
        ReachesAfter(ns, ms, root, q, c, d);
      }
    }
  }

  lemma MovedFacts(ns: Nodes, ms: Nodes, root: nat, p: nat, n: Name, q: nat, l: Name, c: nat)
    requires Tree(ns, root) && Named(ns, p, n, c) && IsDir(ns, c) && !Named(ns, q, l, c) && Moved(ns, ms, p, n, q, l, c)
    ensures Rehangs(ns, ms, q, c) && c != root && Up(ns, root) == root && Linked(ms, c) && forall d :: Linked(ms, d) ==> Linked(ns, d)
  {
    hide Up;
  }

  /** Moving a file moves no directory. */
  lemma FileMoveRooted(ns: Nodes, ms: Nodes, root: nat, p: nat, n: Name, q: nat, l: Name, c: nat)
    requires Tree(ns, root) && Rooted(ns, root) && !IsDir(ns, c) && Moved(ns, ms, p, n, q, l, c)
    ensures Rooted(ms, root)
  {
    assert Up(ms, c) == Up(ns, c) == 0;
    hide Tree, Up, Linked, Named, IsDir;
    RootedKept(ns, ms, root);
  }
}
