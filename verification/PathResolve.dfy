/** Path resolution into a fixed buffer. */
module PathResolve {
  import opened PathNames

  const PATH_MAX: nat := 256

  /** A C string pointer that may be null. */
  datatype Text = Null | Text(chars: string)

  /** Where name `k` starts in the joined text. */
  ghost function Start(stack: seq<string>, k: nat): nat
    requires k <= |stack|
  {
    |Join(stack[..k])| + if k == 0 then 0 else 1
  }

  lemma JoinPush(stack: seq<string>, seg: string)
    ensures Join(stack + [seg]) == (if stack == [] then "/" else Join(stack) + "/") + seg
    ensures forall k :: 0 <= k <= |stack| ==> Start(stack + [seg], k) == Start(stack, k)
  {
    var next := stack + [seg];
    assert next[..|next| - 1] == stack;
    forall k | 0 <= k <= |stack|
      ensures Start(next, k) == Start(stack, k)
    {
      assert next[..k] == stack[..k];
    }
  }

  lemma JoinLong(stack: seq<string>)
    requires Clean(stack)
    ensures |Join(stack)| > 1 <==> stack != []
  {
    if stack != [] {
      assert Plain(stack[|stack| - 1]);
    }
  }

  lemma JoinPop(stack: seq<string>)
    requires Clean(stack) && stack != []
    ensures var front := stack[..|stack| - 1];
            && Clean(front) && Join(front) <= Join(stack) && |Join(front)| < |Join(stack)|
            && |Join(front)| == (if Start(stack, |front|) > 1 then Start(stack, |front|) - 1 else 1)
  {
    var front, l := stack[..|stack| - 1], stack[|stack| - 1];
    assert Plain(l);
    assert stack == front + [l];
    JoinPush(front, l);
    JoinLong(front);
    assert stack[..|front|] == front;
  }

  lemma StartPop(stack: seq<string>, k: nat)
    requires k < |stack|
    ensures Start(stack[..|stack| - 1], k) == Start(stack, k)
  {
    assert stack[..|stack| - 1][..k] == stack[..k];
  }

  lemma CleanPush(stack: seq<string>, seg: string)
    requires Plain(seg)
    ensures Clean(stack) ==> Clean(stack + [seg])
  {
  }

  class PathBuild {
    const out: array<char>
    var len: nat
    const starts: array<nat>
    var count: nat

    /** The buffer holds the joined stack, terminated, and `starts` where each name begins. */
    ghost predicate Holds(stack: seq<string>)
      reads this, out, starts
    {
      && Clean(stack) && count == |stack| <= starts.Length
      && len == |Join(stack)| < out.Length && out[..len] == Join(stack) && out[len] == '\0'
      && forall k :: 0 <= k < count ==> starts[k] == Start(stack, k)
    }

    constructor (out: array<char>, cap: nat)
      requires out.Length >= 2
      ensures this.out == out && fresh(starts) && starts.Length == cap
      ensures len == 1 && count == 0
    {
      this.out := out;
      this.starts := new nat[cap](_ => 0);
      len := 1;
      count := 0;
    }

    method Root()
      requires out.Length >= 2
      modifies this, out
      ensures Holds([])
    {
      count := 0;
      len := 1;
      out[0] := '/';
      out[1] := '\0';
      assert out[..len] == "/";
    }

    method Pop(ghost stack: seq<string>)
      requires Holds(stack)
      modifies this, out
      ensures Holds(if stack == [] then [] else stack[..|stack| - 1])
    {
      if count == 0 {
        len := 1;
        assert out[..1] == Join([]);
        out[1] := '\0';
        assert out[..1] == Join([]);
        return;
      }
      JoinPop(stack);
      ghost var front := stack[..|stack| - 1];
      forall k | 0 <= k < |front|
        ensures Start(front, k) == Start(stack, k)
      {
        StartPop(stack, k);
      }
      var pos := starts[count - 1];
      assert out[..len][..|Join(front)|] == Join(front);
      len := if pos > 1 then pos - 1 else 1;
      out[len] := '\0';
      count := count - 1;
      assert out[..len] == Join(front);
    }

    /** Refused exactly when the longer path or its terminator, or one more start, has no room. */
    method Push(ghost stack: seq<string>, seg: string) returns (ok: bool)
      requires Holds(stack) && Plain(seg)
      modifies this, out, starts
      ensures ok <==> |stack| < starts.Length && |Join(stack + [seg])| < out.Length
      ensures Holds(if ok then stack + [seg] else stack)
    {
      hide Join, Clean;
      JoinPush(stack, seg);
      JoinLong(stack);
      CleanPush(stack, seg);
      if count >= starts.Length { return false; }
      var extra := if len > 1 then 1 else 0;
      if len + extra + |seg| >= out.Length { return false; }
      ghost var text := Join(stack);
      if len > 1 {
        out[len] := '/';
        len := len + 1;
      }
      ghost var head := out[..len];
      assert head == if stack == [] then "/" else text + "/";
      starts[count] := len;
      count := count + 1;
      forall k | 0 <= k < |seg| {
        out[len + k] := seg[k];
      }
      assert out[..len] == head;
      len := len + |seg|;
      assert out[..len] == head + seg;
      out[len] := '\0';
      assert out[..len] == head + seg;
      assert (stack + [seg])[..|stack|] == stack;
      ok := true;
    }

    /** Walks one input over the stack; refused exactly when some stack on the way has no room. */
    method Apply(ghost stack: seq<string>, input: string) returns (ok: bool)
      requires Holds(stack)
      modifies this, out, starts
      ensures ok <==> Fits(stack, Segments(input), out.Length, starts.Length)
      ensures ok ==> Holds(WalkAll(stack, Segments(input)))
    {
      hide Join, Clean, Segments, WalkAll, Fits;
      ghost var now := stack;
      var cursor := 0;
      assert input[0..] == input;
      while cursor < |input|
        invariant 0 <= cursor <= |input| && Holds(now)
        invariant WalkAll(now, Segments(input[cursor..])) == WalkAll(stack, Segments(input))
        invariant Fits(now, Segments(input[cursor..]), out.Length, starts.Length)
                  <==> Fits(stack, Segments(input), out.Length, starts.Length)
      {
        cursor := SkipSlashes(input, cursor);
        if cursor == |input| { break; }
        var start := cursor;
        cursor := SegmentEnd(input, cursor);
        var seg := input[start..cursor];
        SegmentStep(now, input, start, cursor, out.Length, starts.Length);
        if seg == "." {
          continue;
        }
        if seg == ".." {
          Pop(now);
          now := if now == [] then [] else now[..|now| - 1];
          continue;
        }
        var pushed := Push(now, seg);
        if !pushed {
          return false;
        }
        now := now + [seg];
      }
      NothingLeft(now, input[cursor..], out.Length, starts.Length);
      ok := true;
    }
  }

  method SkipSlashes(input: string, from: nat) returns (c: nat)
    requires from <= |input|
    ensures from <= c <= |input| && (c < |input| ==> input[c] != '/')
    ensures Segments(input[c..]) == Segments(input[from..])
  {
    c := from;
    while c < |input| && input[c] == '/'
      invariant from <= c <= |input| && Segments(input[c..]) == Segments(input[from..])
    {
      assert input[c..][1..] == input[c + 1..];
      c := c + 1;
    }
  }

  method SegmentEnd(input: string, from: nat) returns (c: nat)
    requires from < |input| && input[from] != '/'
    ensures from < c <= |input| && c == from + RunLength(input[from..])
  {
    c := from;
    while c < |input| && input[c] != '/'
      invariant from <= c <= |input| && c + RunLength(input[c..]) == from + RunLength(input[from..])
    {
      assert input[c..][1..] == input[c + 1..];
      c := c + 1;
    }
  }

  lemma SegmentStep(stack: seq<string>, input: string, start: nat, end: nat, size: nat, cap: nat)
    requires start < end <= |input| && input[start] != '/' && end == start + RunLength(input[start..])
    ensures var seg, next := input[start..end], Walk(stack, input[start..end]);
            && (seg != "." && seg != ".." ==> Plain(seg) && next == stack + [seg])
            && (seg == "." ==> next == stack) && (seg == ".." ==> next == if stack == [] then [] else stack[..|stack| - 1])
            && WalkAll(stack, Segments(input[start..])) == WalkAll(next, Segments(input[end..]))
            && (Fits(stack, Segments(input[start..]), size, cap) <==>
                (|next| > |stack| ==> Room(next, size, cap)) && Fits(next, Segments(input[end..]), size, cap))
  {
    hide Join;
    var rest, n := input[start..], end - start;
    assert rest[..n] == input[start..end] && rest[n..] == input[end..];
    assert Segments(rest)[1..] == Segments(rest[n..]);
  }

  lemma NothingLeft(stack: seq<string>, rest: string, size: nat, cap: nat)
    requires rest == ""
    ensures WalkAll(stack, Segments(rest)) == stack && Fits(stack, Segments(rest), size, cap)
  {
  }

  /** The working directory that is used: none given means the root. */
  function Base(cwd: Text): (b: string)
    ensures if cwd.Text? && cwd.chars != "" then b == cwd.chars else Segments(b) == []
  {
    assert "/"[1..] == "";
    if cwd == Null || cwd.chars == "" then "/" else cwd.chars
  }

  /** Succeeds exactly when there is a buffer and a path and every stack on the way fits; the buffer then holds
      the normalised absolute path and its terminator. */
  method Resolve(cwd: Text, path: Text, out: array?<char>) returns (ok: bool)
    modifies if out == null then {} else {out}
    ensures ok <==> out != null && out.Length >= 2 && path != Null && path.chars != ""
                    && TargetFits(Base(cwd), path.chars, out.Length, PATH_MAX / 2)
    ensures ok ==> var s := Join(Target(Base(cwd), path.chars));
                   |s| < out.Length && out[..|s|] == s && out[|s|] == '\0'
  {
    hide Join, Clean, Segments, WalkAll, Fits;
    if out == null || out.Length < 2 || path == Null || path.chars == "" {
      return false;
    }
    var built := new PathBuild(out, PATH_MAX / 2);
    built.Root();
    ghost var stack: seq<string> := [];
    if path.chars[0] != '/' {
      ok := built.Apply([], Base(cwd));
      if !ok { return; }
      stack := WalkAll([], Segments(Base(cwd)));
    }
    ok := built.Apply(stack, path.chars);
  }

  /** A name followed by `..` can be left out of the path, in the buffer too; only room on the way can tell. */
  method ResolveDetour(cwd: Text, p: string, x: string, rest: string, out: array<char>, direct: array<char>) returns (ok: bool, same: bool)
    requires p != "" && Plain(x) && out != direct && out.Length == direct.Length
    modifies out, direct
    ensures ok ==> same && var s := Join(Target(Base(cwd), p + "/" + rest));
                           |s| < out.Length && out[..|s|] == direct[..|s|] == s && out[|s|] == direct[|s|] == '\0'
  {
    hide Target, TargetFits, Join;
    ok := Resolve(cwd, Text(p + "/" + x + "/" + ".." + "/" + rest), out);
    same := Resolve(cwd, Text(p + "/" + rest), direct);
    UpUndoes(Base(cwd), p, x, rest);
    if ok { DetourFits(Base(cwd), p, x, rest, out.Length, PATH_MAX / 2); }
  }
}
