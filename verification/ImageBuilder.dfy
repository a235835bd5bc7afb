/**
 * The image builder: lays files out block by block, children tables before the tables that
 * name them, and writes bitmaps and counters.  What it writes is what the driver reads.
 */
module ImageBuilder {
  import opened Sets
  import opened BlockTree
  import opened TreeSteps

  predicate Between(lo: nat, b: nat, hi: nat) {
    lo <= b < hi
  }

  function Range(lo: nat, hi: nat): set<nat> {
    set b: nat | lo <= b < hi && Between(lo, b, hi)
  }

  lemma RangeSize(lo: nat, hi: nat)
    requires lo <= hi
    ensures |Range(lo, hi)| == hi - lo
    decreases hi - lo
  {
    if lo < hi {
      RangeSize(lo + 1, hi);
      assert Range(lo, hi) == {lo} + Range(lo + 1, hi);
    } else {
      assert Range(lo, hi) == {};
    }
  }

  /** The list continued by zeros. */
  function At(ptrs: seq<nat>, i: nat): nat {
    if i < |ptrs| then ptrs[i] else 0
  }

  /** The tree maps index `i` to the `i`-th block of the list, and to nothing past its end. */
  ghost predicate Mirrors(t: Tree, e: nat, level: nat, ptrs: seq<nat>)
    requires e > 0
  {
    forall i: nat :: i < Span(e, level) ==> Lookup(t, e, level, i) == At(ptrs, i)
  }

  /** A tree built for `ptrs` whose tables are exactly the blocks `lo .. hi`. */
  ghost predicate BuiltTree(t: Tree, e: nat, level: nat, ptrs: seq<nat>, lo: nat, hi: nat) {
    && e > 0 && Mirrors(t, e, level, ptrs) && Distinct(t) && lo <= hi
    && Blocks(t) == SetOf(ptrs) + Range(lo, hi) && Tables(t) == Range(lo, hi)
  }

  /** The elements of a list from `lo` up to `hi`, as far as there are any. */
  function Part<T>(ptrs: seq<T>, lo: nat, hi: nat): seq<T>
    requires lo <= hi
  {
    if lo >= |ptrs| then [] else if hi >= |ptrs| then ptrs[lo..] else ptrs[lo..hi]
  }

  lemma PartAt(ptrs: seq<nat>, lo: nat, hi: nat, o: nat)
    requires lo <= hi && lo + o < hi
    ensures At(Part(ptrs, lo, hi), o) == At(ptrs, lo + o)
  {
  }

  lemma PartsApart(ptrs: seq<nat>, a: nat, b: nat, c: nat, d: nat)
    requires NoRepeats(ptrs) && a <= b <= c <= d
    ensures SetOf(Part(ptrs, a, b)) !! SetOf(Part(ptrs, c, d))
  {
    var p, q := Part(ptrs, a, b), Part(ptrs, c, d);
    forall x | x in p
      ensures x !in q
    {
      var i :| 0 <= i < |p| && p[i] == x;
      assert ptrs[a + i] == x;
    }
  }

  lemma PartGrows(ptrs: seq<nat>, b: nat, c: nat)
    requires b <= c
    ensures SetOf(Part(ptrs, 0, c)) == SetOf(Part(ptrs, 0, b)) + SetOf(Part(ptrs, b, c))
  {
    assert Part(ptrs, 0, c) == Part(ptrs, 0, b) + Part(ptrs, b, c);
  }

  // ----- children built one after the other

  /** Subtree `k` has height `levels[k]`, holds the list from `cuts[k]` on, and its tables start at block `starts[k]`. */
  datatype Plan = Plan(kids: seq<Tree>, levels: seq<nat>, cuts: seq<nat>, starts: seq<nat>)

  ghost predicate Built(p: Plan, e: nat, ptrs: seq<nat>) {
    && |p.levels| == |p.kids| && |p.cuts| == |p.kids| + 1 && |p.starts| == |p.kids| + 1 && p.cuts[0] == 0
    && (forall k :: 0 <= k < |p.kids| ==> p.cuts[k] <= p.cuts[k + 1])
    && forall k :: 0 <= k < |p.kids| ==> BuiltKid(p, e, ptrs, k)
  }

  ghost predicate BuiltKid(p: Plan, e: nat, ptrs: seq<nat>, k: nat)
    requires k < |p.kids| == |p.levels| && |p.cuts| == |p.kids| + 1 && |p.starts| == |p.kids| + 1 && p.cuts[k] <= p.cuts[k + 1]
  {
    BuiltTree(p.kids[k], e, p.levels[k], Part(ptrs, p.cuts[k], p.cuts[k + 1]), p.starts[k], p.starts[k + 1])
  }

  lemma KidFacts(p: Plan, e: nat, ptrs: seq<nat>, k: nat)
    requires Built(p, e, ptrs) && k < |p.kids|
    ensures p.starts[k] <= p.starts[k + 1] && Distinct(p.kids[k])
    ensures Blocks(p.kids[k]) == SetOf(Part(ptrs, p.cuts[k], p.cuts[k + 1])) + Range(p.starts[k], p.starts[k + 1])
    ensures Tables(p.kids[k]) == Range(p.starts[k], p.starts[k + 1])
  {
    assert BuiltKid(p, e, ptrs, k);
  }

  lemma {:induction false} PlanOrder(p: Plan, e: nat, ptrs: seq<nat>, i: nat, j: nat)
    requires Built(p, e, ptrs) && i <= j <= |p.kids|
    ensures p.starts[i] <= p.starts[j] && p.cuts[i] <= p.cuts[j]
    decreases j
  {
    hide BuiltTree, Part, BuiltKid;
    if i < j {
      PlanOrder(p, e, ptrs, i, j - 1);
      KidFacts(p, e, ptrs, j - 1);
    }
  }

  lemma {:induction false} PlanUnion(p: Plan, e: nat, ptrs: seq<nat>, n: nat)
    requires Built(p, e, ptrs) && n <= |p.kids|
    ensures BlocksOfAll(p.kids[..n]) == SetOf(Part(ptrs, 0, p.cuts[n])) + Range(p.starts[0], p.starts[n])
    ensures TablesOfAll(p.kids[..n]) == Range(p.starts[0], p.starts[n])
  {
    hide BuiltTree, BuiltKid;
    if n > 0 {
      PlanUnion(p, e, ptrs, n - 1);
      PrefixStep(p.kids, n - 1);
      KidFacts(p, e, ptrs, n - 1);
      PlanOrder(p, e, ptrs, 0, n - 1);
      PartGrows(ptrs, p.cuts[n - 1], p.cuts[n]);
      assert Range(p.starts[0], p.starts[n]) == Range(p.starts[0], p.starts[n - 1]) + Range(p.starts[n - 1], p.starts[n]);
    }
  }

  /** A list of distinct blocks, all of them allocated before block `next`. */
  ghost predicate Fits(ptrs: seq<nat>, next: nat) {
    NoRepeats(ptrs) && forall k :: 0 <= k < |ptrs| ==> 0 < ptrs[k] < next
  }

  lemma PartFits(ptrs: seq<nat>, next: nat, lo: nat, hi: nat)
    requires Fits(ptrs, next) && lo <= hi
    ensures Fits(Part(ptrs, lo, hi), next) && forall b :: b in Part(ptrs, lo, hi) ==> 0 < b < next
  {
  }

  lemma PlanApart(p: Plan, e: nat, ptrs: seq<nat>, i: nat, j: nat)
    requires Built(p, e, ptrs) && i < j < |p.kids| && Fits(ptrs, p.starts[0])
    ensures Blocks(p.kids[i]) !! Blocks(p.kids[j])
  {
    KidFacts(p, e, ptrs, i);
    KidFacts(p, e, ptrs, j);
    PlanOrder(p, e, ptrs, 0, i);
    PlanOrder(p, e, ptrs, i + 1, j);
    PartFits(ptrs, p.starts[0], p.cuts[i], p.cuts[i + 1]);
    PartFits(ptrs, p.starts[0], p.cuts[j], p.cuts[j + 1]);
    PartsApart(ptrs, p.cuts[i], p.cuts[i + 1], p.cuts[j], p.cuts[j + 1]);
    hide BuiltTree, BuiltKid, Built, Fits, Part, NoRepeats;
  }

  lemma PlanDistinct(p: Plan, e: nat, ptrs: seq<nat>, root: nat)
    requires Built(p, e, ptrs) && Fits(ptrs, p.starts[0]) && (root == 0 < p.starts[0] || root == p.starts[|p.kids|])
    ensures Distinct(Node(root, p.kids))
  {
    hide BuiltTree, BuiltKid, Fits, Part, NoRepeats;
    forall i | 0 <= i < |p.kids|
      ensures Distinct(p.kids[i]) && root !in Blocks(p.kids[i])
    {
      KidFacts(p, e, ptrs, i);
      PlanOrder(p, e, ptrs, 0, i);
      PlanOrder(p, e, ptrs, i + 1, |p.kids|);
      PartFits(ptrs, p.starts[0], p.cuts[i], p.cuts[i + 1]);
    }
    forall i, j | 0 <= i < j < |p.kids|
      ensures Blocks(p.kids[i]) !! Blocks(p.kids[j])
    {
      PlanApart(p, e, ptrs, i, j);
    }
  }

  function Grown(p: Plan, t: Tree, level: nat, cut: nat, start: nat): Plan {
    Plan(p.kids + [t], p.levels + [level], p.cuts + [cut], p.starts + [start])
  }

  lemma PlanGrows(p: Plan, e: nat, ptrs: seq<nat>, t: Tree, level: nat, cut: nat, start: nat)
    requires Built(p, e, ptrs) && p.cuts[|p.kids|] <= cut
    requires BuiltTree(t, e, level, Part(ptrs, p.cuts[|p.kids|], cut), p.starts[|p.kids|], start)
    ensures Built(Grown(p, t, level, cut, start), e, ptrs)
  {
    hide BuiltTree, Part;
    var g := Grown(p, t, level, cut, start);
    forall k | 0 <= k < |g.kids|
      ensures g.cuts[k] <= g.cuts[k + 1] && BuiltKid(g, e, ptrs, k)
    {
      if k < |p.kids| {
        assert BuiltKid(p, e, ptrs, k);
      }
    }
  }

  lemma EmptyPlan(e: nat, ptrs: seq<nat>, start: nat)
    ensures Built(Plan([], [], [0], [start]), e, ptrs)
  {
  }

  lemma HoleBuilt(e: nat, level: nat, s: nat)
    requires e > 0
    ensures BuiltTree(Hole, e, level, [], s, s)
  {
  }

  // ----- the table above its children

  /** All children have the same height, and child `k` starts at `k` times its span. */
  ghost predicate Even(p: Plan, e: nat, level: nat) {
    && |p.levels| == |p.kids| && |p.cuts| == |p.kids| + 1
    && (forall k :: 0 <= k < |p.kids| ==> p.levels[k] == level)
    && forall k :: 0 <= k <= |p.kids| ==> p.cuts[k] == k * Span(e, level)
  }

  lemma EvenGrows(p: Plan, e: nat, level: nat, t: Tree, start: nat)
    requires Even(p, e, level)
    ensures Even(Grown(p, t, level, p.cuts[|p.kids|] + Span(e, level), start), e, level)
  {
    var n, cap := |p.kids|, Span(e, level);
    assert (n + 1) * cap == n * cap + cap;
  }

  lemma AssembledMap(p: Plan, e: nat, level: nat, ptrs: seq<nat>, root: nat, i: nat)
    requires Built(p, e, ptrs) && Even(p, e, level) && |p.kids| == e > 0 && i < Span(e, level + 1)
    ensures Lookup(Node(root, p.kids), e, level + 1, i) == At(ptrs, i)
  {
    hide Distinct;
    var cap := Span(e, level);
    SpanPositive(e, level);
    SplitIndex(i, e, cap);
    var k, o := i / cap, i % cap;
    assert BuiltKid(p, e, ptrs, k);
    EvenCut(p, e, level, k);
    PartAt(ptrs, p.cuts[k], p.cuts[k + 1], o);
    assert Lookup(p.kids[k], e, level, o) == At(Part(ptrs, p.cuts[k], p.cuts[k + 1]), o);
  }

  lemma EvenCut(p: Plan, e: nat, level: nat, k: nat)
    requires Even(p, e, level) && k < |p.kids|
    ensures p.cuts[k] == k * Span(e, level) && p.cuts[k + 1] == p.cuts[k] + Span(e, level)
  {
  }

  /** The table above built children is a built tree one level higher. */
  lemma Assembled(p: Plan, e: nat, level: nat, ptrs: seq<nat>, root: nat)
    requires Built(p, e, ptrs) && Even(p, e, level) && |p.kids| == e > 0 && |ptrs| <= Span(e, level + 1)
    requires Fits(ptrs, p.starts[0]) && root == p.starts[e]
    ensures BuiltTree(Node(root, p.kids), e, level + 1, ptrs, p.starts[0], root + 1)
  {
    assert |p.starts| == e + 1 && |p.cuts| == e + 1;
    hide Built, Lookup, Fits, Distinct, NoRepeats;
    var t := Node(root, p.kids);
    forall i: nat | i < Span(e, level + 1)
      ensures Lookup(t, e, level + 1, i) == At(ptrs, i)
    {
      AssembledMap(p, e, level, ptrs, root, i);
    }
    PlanUnion(p, e, ptrs, e);
    PrefixAll(p.kids);
    assert p.cuts[e] == Span(e, level + 1);
    PlanOrder(p, e, ptrs, 0, e);
    PlanDistinct(p, e, ptrs, root);
    assert Range(p.starts[0], root + 1) == Range(p.starts[0], root) + {root};
  }
}
