/** Path names as segments: what resolving a path against a working directory means. */
module PathNames {

  /** The length of the leading run of characters that are not slashes. */
  function RunLength(s: string): (n: nat)
    ensures n <= |s| && (forall k :: 0 <= k < n ==> s[k] != '/') && (n < |s| ==> s[n] == '/')
  {
    if s == "" || s[0] == '/' then 0 else 1 + RunLength(s[1..])
  }

  /** The parts of a path between slashes; repeated, leading and trailing slashes give none. */
  function Segments(s: string): seq<string>
    decreases |s|
  {
    if s == "" then []
    else if s[0] == '/' then Segments(s[1..])
    else [s[..RunLength(s)]] + Segments(s[RunLength(s)..])
  }

  /** One segment applied to a stack of directory names. */
  function Walk(stack: seq<string>, seg: string): seq<string> {
    if seg == "." then stack
    else if seg == ".." then if stack == [] then [] else stack[..|stack| - 1]
    else stack + [seg]
  }

  function WalkAll(stack: seq<string>, segs: seq<string>): seq<string>
    decreases |segs|
  {
    if segs == [] then stack else WalkAll(Walk(stack, segs[0]), segs[1..])
  }

  /** An absolute path starts at the root, any other at the working directory; no working directory means the root. */
  function Target(cwd: string, path: string): seq<string> {
    WalkAll(if path != "" && path[0] == '/' then [] else WalkAll([], Segments(cwd)), Segments(path))
  }

  function Join(stack: seq<string>): (s: string)
    ensures |s| > 0 && s[0] == '/'
  {
    if stack == [] then "/"
    else if |stack| == 1 then "/" + stack[0]
    else Join(stack[..|stack| - 1]) + "/" + stack[|stack| - 1]
  }

  predicate Room(stack: seq<string>, size: nat, cap: nat) {
    |stack| <= cap && |Join(stack)| < size
  }

  /** Every stack on the way fits the buffer with its terminator, and the position stack. */
  predicate Fits(stack: seq<string>, segs: seq<string>, size: nat, cap: nat)
    decreases |segs|
  {
    segs == []
    || (var next := Walk(stack, segs[0]); (|next| > |stack| ==> Room(next, size, cap)) && Fits(next, segs[1..], size, cap))
  }

  predicate TargetFits(cwd: string, path: string, size: nat, cap: nat) {
    if path != "" && path[0] == '/' then Fits([], Segments(path), size, cap)
    else Fits([], Segments(cwd), size, cap) && Fits(WalkAll([], Segments(cwd)), Segments(path), size, cap)
  }

  predicate Plain(seg: string) {
    seg != "" && '/' !in seg && seg != "." && seg != ".."
  }

  ghost predicate Clean(stack: seq<string>) {
    forall k :: 0 <= k < |stack| ==> Plain(stack[k])
  }

  ghost predicate Proper(segs: seq<string>) {
    forall k :: 0 <= k < |segs| ==> segs[k] != "" && '/' !in segs[k]
  }

  lemma {:induction false} SegmentsProper(s: string)
    ensures Proper(Segments(s))
    decreases |s|
  {
    if s == "" {
    } else if s[0] == '/' {
      SegmentsProper(s[1..]);
    } else {
      SegmentsProper(s[RunLength(s)..]);
    }
  }

  lemma {:induction false} WalkClean(stack: seq<string>, segs: seq<string>)
    requires Clean(stack) && Proper(segs)
    ensures Clean(WalkAll(stack, segs))
    decreases |segs|
  {
    if segs != [] {
      WalkClean(Walk(stack, segs[0]), segs[1..]);
    }
  }

  /** The result never names the current or the parent directory and has no empty name. */
  lemma TargetClean(cwd: string, path: string)
    ensures Clean(Target(cwd, path))
  {
    SegmentsProper(cwd);
    SegmentsProper(path);
    WalkClean([], Segments(cwd));
    WalkClean(if path != "" && path[0] == '/' then [] else WalkAll([], Segments(cwd)), Segments(path));
  }

  lemma {:induction false} WalkConcat(stack: seq<string>, a: seq<string>, b: seq<string>)
    ensures WalkAll(stack, a + b) == WalkAll(WalkAll(stack, a), b)
    decreases |a|
  {
    if a == [] {
      assert a + b == b;
    } else {
      assert (a + b)[1..] == a[1..] + b;
      WalkConcat(Walk(stack, a[0]), a[1..], b);
    }
  }

  lemma {:induction false} RunOfConcat(a: string, b: string)
    ensures RunLength(a + "/" + b) == RunLength(a)
  {
    if a != "" && a[0] != '/' {
      assert (a + "/" + b)[1..] == a[1..] + "/" + b;
      RunOfConcat(a[1..], b);
    }
  }

  lemma SegmentsHead(s: string)
    ensures s == "" ==> Segments(s) == []
    ensures s != "" && s[0] == '/' ==> Segments(s) == Segments(s[1..])
    ensures s != "" && s[0] != '/' ==> RunLength(s) > 0 && Segments(s) == [s[..RunLength(s)]] + Segments(s[RunLength(s)..])
  {
  }

  lemma CutConcat(a: string, b: string, n: nat)
    requires n <= |a|
    ensures (a + "/" + b)[..n] == a[..n] && (a + "/" + b)[n..] == a[n..] + "/" + b
  {
  }

  lemma {:induction false} SegmentsConcat(a: string, b: string)
    ensures Segments(a + "/" + b) == Segments(a) + Segments(b)
    decreases |a|
  {
    hide Segments, RunLength;
    var s := a + "/" + b;
    SegmentsHead(a);
    SegmentsHead(s);
    if a == "" {
      assert s[1..] == b;
    } else if a[0] == '/' {
      CutConcat(a, b, 1);
      SegmentsConcat(a[1..], b);
    } else {
      var n := RunLength(a);
      RunOfConcat(a, b);
      CutConcat(a, b, n);
      SegmentsConcat(a[n..], b);
      assert [a[..n]] + (Segments(a[n..]) + Segments(b)) == ([a[..n]] + Segments(a[n..])) + Segments(b);
    }
  }

  /** A relative path means the working directory, a slash and the path. */
  lemma RelativeMeans(cwd: string, path: string)
    requires path != "" && path[0] != '/'
    ensures Target(cwd, path) == Target("", "/" + cwd + "/" + path)
  {
    var whole := "/" + cwd + "/" + path;
    assert whole[0] == '/' && whole[1..] == cwd + "/" + path;
    SegmentsConcat(cwd, path);
    WalkConcat([], Segments(cwd), Segments(path));
  }

  // ----- what the parts of a path mean

  /** A path followed by a slash and more means the rest walked from where the path leads. */
  lemma TargetConcat(cwd: string, p: string, rest: string)
    requires p != ""
    ensures Target(cwd, p + "/" + rest) == WalkAll(Target(cwd, p), Segments(rest))
  {
    hide Segments, WalkAll;
    SegmentsConcat(p, rest);
    WalkConcat(if p[0] == '/' then [] else WalkAll([], Segments(cwd)), Segments(p), Segments(rest));
  }

  lemma WalkOne(stack: seq<string>, seg: string)
    ensures WalkAll(stack, [seg]) == Walk(stack, seg)
  {
    assert [seg][1..] == [];
  }

  /** The root is where an absolute path starts, `..` leads no further up from there, and a path of slashes stays there. */
  lemma RootTarget(cwd: string)
    ensures Target(cwd, "/") == [] && Target(cwd, "/..") == [] && Target(cwd, "/.") == []
  {
    SegmentsOne("..");
    SegmentsOne(".");
    assert "/"[1..] == "" && "/" + ".." == "/.." && "/" + "." == "/.";
    WalkOne([], "..");
    WalkOne([], ".");
  }

  /** A name goes one level down, `.` stays, and `..` goes one level up, or stays at the root. */
  lemma StepTarget(cwd: string, p: string, x: string)
    requires p != "" && Plain(x)
    ensures Target(cwd, p + "/" + x) == Target(cwd, p) + [x]
    ensures Target(cwd, p + "/" + ".") == Target(cwd, p)
    ensures var t := Target(cwd, p);
            Target(cwd, p + "/" + "..") == if t == [] then [] else t[..|t| - 1]
  {
    hide Target, Segments;
    TargetConcat(cwd, p, x);
    TargetConcat(cwd, p, ".");
    TargetConcat(cwd, p, "..");
    SegmentsOne(x);
    SegmentsOne(".");
    SegmentsOne("..");
    WalkOne(Target(cwd, p), x);
    WalkOne(Target(cwd, p), ".");
    WalkOne(Target(cwd, p), "..");
  }

  /** A name followed by `..` can be left out, wherever it stands. */
  lemma UpUndoes(cwd: string, p: string, x: string, rest: string)
    requires p != "" && Plain(x)
    ensures Target(cwd, p + "/" + x + "/" + "..") == Target(cwd, p)
    ensures Target(cwd, p + "/" + x + "/" + ".." + "/" + rest) == Target(cwd, p + "/" + rest)
    ensures Target(cwd, p + "/" + "." + "/" + rest) == Target(cwd, p + "/" + rest)
  {
    hide Target, Segments;
    StepTarget(cwd, p, x);
    StepTarget(cwd, p + "/" + x, x);
    TargetConcat(cwd, p + "/" + x + "/" + "..", rest);
    TargetConcat(cwd, p + "/" + ".", rest);
    TargetConcat(cwd, p, rest);
  }

  lemma {:induction false} FitsConcat(stack: seq<string>, a: seq<string>, b: seq<string>, size: nat, cap: nat)
    ensures Fits(stack, a + b, size, cap) <==> Fits(stack, a, size, cap) && Fits(WalkAll(stack, a), b, size, cap)
    decreases |a|
  {
    if a == [] {
      assert a + b == b;
    } else {
      assert (a + b)[1..] == a[1..] + b;
      FitsConcat(Walk(stack, a[0]), a[1..], b, size, cap);
    }
  }

  /** A path followed by a slash and more fits exactly when it fits and the rest does from where it leads. */
  lemma ConcatFits(cwd: string, p: string, rest: string, size: nat, cap: nat)
    requires p != ""
    ensures TargetFits(cwd, p + "/" + rest, size, cap) <==>
            TargetFits(cwd, p, size, cap) && Fits(Target(cwd, p), Segments(rest), size, cap)
  {
    hide Segments, WalkAll, Fits;
    SegmentsConcat(p, rest);
    FitsConcat(if p[0] == '/' then [] else WalkAll([], Segments(cwd)), Segments(p), Segments(rest), size, cap);
  }

  /** Where a path with a detour fits, so does the path without. */
  lemma DetourFits(cwd: string, p: string, x: string, rest: string, size: nat, cap: nat)
    requires p != "" && Plain(x) && TargetFits(cwd, p + "/" + x + "/" + ".." + "/" + rest, size, cap)
    ensures TargetFits(cwd, p + "/" + rest, size, cap)
  {
    hide Target, TargetFits, Segments, Fits;
    UpUndoes(cwd, p, x, rest);
    ConcatFits(cwd, p + "/" + x + "/" + "..", rest, size, cap);
    ConcatFits(cwd, p + "/" + x, "..", size, cap);
    ConcatFits(cwd, p, x, size, cap);
    ConcatFits(cwd, p, rest, size, cap);
  }

  lemma {:induction false} RunWhole(s: string)
    requires '/' !in s
    ensures RunLength(s) == |s|
  {
    if s != "" { RunWhole(s[1..]); }
  }

  lemma SegmentsOne(s: string)
    requires s != "" && '/' !in s
    ensures Segments(s) == [s] && Segments("/" + s) == [s]
  {
    RunWhole(s);
    assert ("/" + s)[1..] == s;
    assert s[..|s|] == s && s[|s|..] == "";
  }

  /** Splitting undoes joining. */
  lemma {:induction false} SegmentsOfJoin(stack: seq<string>)
    requires Proper(stack)
    ensures Segments(Join(stack)) == stack
    decreases |stack|
  {
    if stack == [] {
      assert Join(stack)[1..] == "";
    } else {
      var front, l := stack[..|stack| - 1], stack[|stack| - 1];
      SegmentsOne(l);
      assert stack == front + [l];
      if |stack| > 1 {
        SegmentsOfJoin(front);
        SegmentsConcat(Join(front), l);
      }
    }
  }

  lemma {:induction false} WalkPlain(stack: seq<string>, segs: seq<string>)
    requires Clean(segs)
    ensures WalkAll(stack, segs) == stack + segs
    decreases |segs|
  {
    if segs != [] {
      assert Plain(segs[0]);
      WalkPlain(stack + [segs[0]], segs[1..]);
      assert stack + [segs[0]] + segs[1..] == stack + segs;
    }
  }

  /** The stack's joined text grows with every name pushed. */
  lemma {:induction false} JoinPrefix(stack: seq<string>, k: nat)
    requires k <= |stack|
    ensures |Join(stack[..k])| <= |Join(stack)|
    decreases |stack|
  {
    if k < |stack| {
      var front := stack[..|stack| - 1];
      JoinPrefix(front, k);
      assert front[..k] == stack[..k];
    } else {
      assert stack[..k] == stack;
    }
  }

  lemma {:induction false} FitsPlain(stack: seq<string>, segs: seq<string>, size: nat, cap: nat)
    requires Clean(segs) && Room(stack + segs, size, cap)
    ensures Fits(stack, segs, size, cap)
    decreases |segs|
  {
    if segs != [] {
      var next, all := stack + [segs[0]], stack + segs;
      assert Plain(segs[0]);
      assert next + segs[1..] == all && all[..|next|] == next;
      JoinPrefix(all, |next|);
      FitsPlain(next, segs[1..], size, cap);
    }
  }

  /** No two slashes stand together. */
  ghost predicate Tidy(s: string) {
    forall k :: 0 <= k < |s| - 1 && s[k] == '/' ==> s[k + 1] != '/'
  }

  ghost predicate OpenEnded(s: string) {
    s == "" || s[|s| - 1] != '/'
  }

  lemma TidyAppend(p: string, l: string)
    requires Tidy(p) && OpenEnded(p) && l != "" && '/' !in l
    ensures var s := p + "/" + l; Tidy(s) && OpenEnded(s) && |s| > 1
  {
    var s := p + "/" + l;
    forall k | |p| < k < |s|
      ensures s[k] != '/'
    {
      assert s[k] == l[k - |p| - 1] && l[k - |p| - 1] in l;
    }
  }

  /** No empty part between slashes, and no slash at the end except for the root itself. */
  lemma {:induction false} JoinShape(stack: seq<string>)
    requires Proper(stack)
    ensures var s := Join(stack); Tidy(s) && if stack == [] then s == "/" else OpenEnded(s) && |s| > 1
    decreases |stack|
  {
    hide Tidy, OpenEnded;
    if stack == [] {
      RootTidy();
    } else if |stack| == 1 {
      RootTidy();
      TidyAppend("", stack[0]);
      assert "" + "/" + stack[0] == "/" + stack[0];
    } else {
      var front, l := stack[..|stack| - 1], stack[|stack| - 1];
      JoinShape(front);
      TidyAppend(Join(front), l);
    }
  }

  lemma RootTidy()
    ensures Tidy("/") && Tidy("") && OpenEnded("")
  {
  }

  /** The resolved text is absolute, has no empty part and ends in a slash only when it is the root. */
  lemma TargetShape(cwd: string, path: string)
    ensures var s := Join(Target(cwd, path));
            && s[0] == '/' && Tidy(s) && (OpenEnded(s) || s == "/")
            && forall k :: 0 <= k < |Segments(s)| ==> Plain(Segments(s)[k])
  {
    hide Join, Segments;
    var t := Target(cwd, path);
    TargetClean(cwd, path);
    assert Proper(t) by { assert forall k :: 0 <= k < |t| ==> Plain(t[k]); }
    JoinShape(t);
    SegmentsOfJoin(t);
  }

  lemma {:induction false} FitsEnd(stack: seq<string>, segs: seq<string>, size: nat, cap: nat)
    requires Room(stack, size, cap) && Clean(stack) && Proper(segs) && Fits(stack, segs, size, cap)
    ensures Room(WalkAll(stack, segs), size, cap)
    decreases |segs|
  {
    if segs != [] {
      var next := Walk(stack, segs[0]);
      if |next| <= |stack| { JoinPrefix(stack, |next|); }
      FitsEnd(next, segs[1..], size, cap);
    }
  }

  lemma TargetRoom(cwd: string, path: string, size: nat, cap: nat)
    requires TargetFits(cwd, path, size, cap) && size >= 2
    ensures Room(Target(cwd, path), size, cap) && |Target(cwd, path)| <= cap && |Join(Target(cwd, path))| < size
  {
    SegmentsProper(cwd);
    SegmentsProper(path);
    if path != "" && path[0] == '/' {
      FitsEnd([], Segments(path), size, cap);
    } else {
      FitsEnd([], Segments(cwd), size, cap);
      WalkClean([], Segments(cwd));
      FitsEnd(WalkAll([], Segments(cwd)), Segments(path), size, cap);
    }
  }

  /** Resolving a resolved path succeeds in the same space, from any working directory, and gives it back. */
  lemma ResolvedAgain(cwd: string, path: string, other: string, size: nat, cap: nat)
    requires TargetFits(cwd, path, size, cap) && size >= 2
    ensures var s := Join(Target(cwd, path));
            TargetFits(other, s, size, cap) && Target(other, s) == Target(cwd, path)
  {
    var t := Target(cwd, path);
    TargetRoom(cwd, path, size, cap);
    TargetClean(cwd, path);
    assert Proper(t) by { assert forall k :: 0 <= k < |t| ==> Plain(t[k]); }
    SegmentsOfJoin(t);
    WalkPlain([], t);
    assert [] + t == t;
    FitsPlain([], t, size, cap);
  }

  /** A path that has nothing to leave out fits exactly when its names and its text do. */
  lemma PlainFits(cwd: string, stack: seq<string>, size: nat, cap: nat)
    requires Clean(stack) && size >= 2
    ensures TargetFits(cwd, Join(stack), size, cap) <==> |stack| <= cap && |Join(stack)| < size
    ensures Target(cwd, Join(stack)) == stack
  {
    assert Proper(stack) by { assert forall k :: 0 <= k < |stack| ==> Plain(stack[k]); }
    SegmentsOfJoin(stack);
    WalkPlain([], stack);
    assert [] + stack == stack;
    if |stack| <= cap && |Join(stack)| < size {
      FitsPlain([], stack, size, cap);
    }
    if TargetFits(cwd, Join(stack), size, cap) {
      TargetRoom(cwd, Join(stack), size, cap);
    }
  }

  /** A result that would fit is still refused when a longer stack is passed on the way. */
  lemma DetourRefused(a: string, b: string, size: nat, cap: nat)
    requires Plain(a) && Plain(b) && |b| + 1 < size <= |a| + 1 && cap > 0
    ensures var path := "/" + a + "/" + ".." + "/" + b;
            Room(Target("", path), size, cap) && !TargetFits("", path, size, cap)
  {
    hide Segments;
    var path := "/" + a + "/" + ".." + "/" + b;
    SegmentsConcat("/" + a + "/" + "..", b);
    SegmentsConcat("/" + a, "..");
    SegmentsOne(a);
    SegmentsOne("..");
    SegmentsOne(b);
    assert Segments(path) == [a, "..", b];
    DetourWalk(a, b, size, cap);
  }

  lemma DetourWalk(a: string, b: string, size: nat, cap: nat)
    requires Plain(a) && Plain(b) && size <= |a| + 1
    ensures WalkAll([], [a, "..", b]) == [b] && !Fits([], [a, "..", b], size, cap)
  {
    var up: seq<string> := ["..", b];
    assert [a, "..", b][1..] == up;
    assert Walk([], a) == [a];
    BackWalk(a, b);
    hide Walk;
    assert WalkAll([], [a, "..", b]) == WalkAll([a], up);
  }

  lemma BackWalk(a: string, b: string)
    requires Plain(a) && Plain(b)
    ensures WalkAll([a], ["..", b]) == [b]
  {
    assert ["..", b][1..] == [b] && [b][1..] == [];
    assert Walk([a], "..") == [a][..0] == [] && Walk([], b) == [b];
    hide Walk;
    assert WalkAll([], [b]) == WalkAll([b], []);
  }
}
