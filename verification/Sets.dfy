/** Finite sets, and lists as sets. */
module Sets {
  lemma SubsetSize<T>(a: set<T>, b: set<T>)
    requires b <= a
    ensures |a - b| == |a| - |b| && |b| <= |a| && (a != b ==> |b| < |a|)
  {
    assert a == (a - b) + b;
  }

  function SetOf(s: seq<nat>): set<nat> {
    set x | x in s
  }

  ghost predicate NoRepeats(s: seq<nat>) {
    forall i, j :: 0 <= i < j < |s| ==> s[i] != s[j]
  }

  lemma {:induction false} SetOfSize(s: seq<nat>)
    requires NoRepeats(s)
    ensures |SetOf(s)| == |s|
  {
    if s != [] {
      var n := |s| - 1;
      SetOfSize(s[..n]);
      assert SetOf(s) == SetOf(s[..n]) + {s[n]};
    }
  }
}
