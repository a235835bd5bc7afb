/** How many blocks the image builder needs for a file: its data, and the tables that point to it. */
module SpaceNeed {
  import opened BlockTree
  import opened FileTree

  function Least(a: nat, b: nat): nat {
    if a < b then a else b
  }

  /** Tables below and including one of height `level` over `n` data blocks. */
  function TableNeed(e: nat, level: nat, n: nat): nat
    requires e > 0 && level >= 1
    decreases level, 0, n
  {
    if n == 0 then 0 else if level == 1 then 1 else 1 + ChildNeed(e, level - 1, n)
  }

  /** Tables of height at most `level` over `n` data blocks, each filled before the next. */
  function ChildNeed(e: nat, level: nat, n: nat): nat
    requires e > 0 && level >= 1
    decreases level, 1, n
  {
    SpanPositive(e, level);
    if n == 0 then 0
    else TableNeed(e, level, Least(n, Span(e, level))) + ChildNeed(e, level, n - Least(n, Span(e, level)))
  }

  /** The data blocks that the table of height `level` in an inode serves. */
  function Share(e: nat, level: nat, n: nat): nat
    requires 1 <= level <= 3
  {
    if n <= First(e, 11 + level) then 0 else Least(n - First(e, 11 + level), Span(e, level))
  }

  function PointerNeed(e: nat, levels: nat, n: nat): nat
    requires e > 0 && levels <= 3
  {
    if levels == 0 then 0 else PointerNeed(e, levels - 1, n) + TableNeed(e, levels, Share(e, levels, n))
  }

  /** Blocks handed out for a file of `len` bytes. */
  function FileNeed(e: nat, len: nat): nat
    requires e > 0
  {
    BlocksIn(len, 4 * e) + PointerNeed(e, 3, BlocksIn(len, 4 * e))
  }

  lemma OneBlockMore(n: nat, e: nat)
    requires e > 0
    ensures BlocksIn(0, e) == 0 && (0 < n <= e ==> BlocksIn(n, e) == 1) && (n > e ==> BlocksIn(n, e) == BlocksIn(n - e, e) + 1)
  {
    JoinIndex(0, e - 1, 1, e);
    if 0 < n <= e {
      JoinIndex(1, n - 1, 2, e);
    } else if n > e {
      var x := n - 1;
      assert x == x / e * e + x % e;
      assert (x / e + 1) * e == x / e * e + e;
      JoinIndex(x / e + 1, x % e, x / e + 2, e);
    }
  }

  /** One table for every `e` data blocks or part of them. */
  lemma {:induction false} TablesOver(e: nat, n: nat)
    requires e > 0
    ensures ChildNeed(e, 1, n) == BlocksIn(n, e)
    decreases n
  {
    hide BlocksIn;
    OneBlockMore(n, e);
    assert Span(e, 1) == e * Span(e, 0) == e;
    if n > e { TablesOver(e, n - e); }
  }

  /** A file without tables, with one, and with a table of tables takes exactly these besides its data. */
  lemma NeedIs(e: nat, len: nat)
    requires e > 0
    ensures var n := BlocksIn(len, 4 * e);
            && (n <= 12 ==> FileNeed(e, len) == n) && (12 < n <= 12 + e ==> FileNeed(e, len) == n + 1)
            && (12 + e < n <= 12 + e + e * e ==> FileNeed(e, len) == n + 2 + BlocksIn(n - 12 - e, e))
  {
    hide BlocksIn;
    var n := BlocksIn(len, 4 * e);
    FirstIs(e);
    NeedSteps(e, n);
    if 12 + e < n <= 12 + e + e * e {
      TablesOver(e, n - 12 - e);
    }
  }

  lemma NeedSteps(e: nat, n: nat)
    requires e > 0
    ensures PointerNeed(e, 3, n) == TableNeed(e, 1, Share(e, 1, n)) + TableNeed(e, 2, Share(e, 2, n)) + TableNeed(e, 3, Share(e, 3, n))
  {
    assert PointerNeed(e, 3, n) == PointerNeed(e, 2, n) + TableNeed(e, 3, Share(e, 3, n));
    assert PointerNeed(e, 2, n) == PointerNeed(e, 1, n) + TableNeed(e, 2, Share(e, 2, n));
    assert PointerNeed(e, 1, n) == PointerNeed(e, 0, n) + TableNeed(e, 1, Share(e, 1, n));
  }
}
