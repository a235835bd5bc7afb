/** Bitmaps stored in 32-bit words: masks and word scans against the bits they stand for. */
module BitWords {

  const FULL: bv32 := 0xffff_ffff

  // ----- shift amounts

  /** A bit number as a shift amount. */
  function Amount(k: nat): bv6
    requires k <= 32
  {
    if k == 0 then 0 else Amount(k - 1) + 1
  }

  lemma CountUp(a: bv6)
    requires a < 32
    ensures (a + 1) as int == a as int + 1
  {
  }

  lemma CompareAsInt(a: bv6, b: bv6)
    ensures (a as int <= b as int) == (a <= b)
    ensures (a as int == b as int) == (a == b)
  {
  }

  lemma {:induction false} AmountIs(k: nat)
    requires k <= 32
    ensures Amount(k) as int == k
  {
    if k > 0 {
      AmountIs(k - 1);
      CompareAsInt(32, Amount(k - 1));
      CountUp(Amount(k - 1));
    }
  }

  lemma AmountOrder(k: nat, j: nat)
    requires k <= 32 && j <= 32
    ensures (Amount(k) == Amount(j)) == (k == j)
    ensures (Amount(k) <= Amount(j)) == (k <= j)
  {
    AmountIs(k);
    AmountIs(j);
    CompareAsInt(Amount(k), Amount(j));
  }

  lemma AmountBelow(k: nat)
    requires k < 32
    ensures Amount(k) < 32
  {
    AmountIs(k);
    CompareAsInt(32, Amount(k));
  }

  lemma {:induction false} AmountSum(j: nat, k: nat)
    requires j + k <= 32
    ensures Amount(j) + Amount(k) == Amount(j + k)
  {
    if j > 0 {
      AmountSum(j - 1, k);
    }
  }

  lemma TakeAway(a: bv6, b: bv6, c: bv6)
    requires a + b == c
    ensures c - b == a
  {
  }

  // ----- single words

  predicate BitAt(w: bv32, s: bv6)
    requires s < 32
  {
    (w >> s) & 1 == 1
  }

  function With(w: bv32, s: bv6): bv32
    requires s < 32
  {
    Join(w, One(s))
  }

  function Without(w: bv32, s: bv6): bv32
    requires s < 32
  {
    Cut(w, One(s))
  }

  predicate Tests(w: bv32, s: bv6)
    requires s < 32
  {
    w & One(s) != 0
  }

  function Join(w: bv32, m: bv32): bv32 {
    w | m
  }

  function Cut(w: bv32, m: bv32): bv32 {
    w & !m
  }

  function Low(s: bv6): bv32
    requires s < 32
  {
    (1 << s) - 1
  }

  function Up(m: bv32, s: bv6): bv32
    requires s < 32
  {
    m << s
  }

  lemma TestBitAt(w: bv32, s: bv6)
    requires s < 32
    ensures Tests(w, s) == BitAt(w, s)
  {
  }

  lemma OrBitAt(w: bv32, m: bv32, j: bv6)
    requires j < 32
    ensures BitAt(w | m, j) == (BitAt(w, j) || BitAt(m, j))
  {
  }

  lemma AndNotBitAt(w: bv32, m: bv32, j: bv6)
    requires j < 32
    ensures BitAt(w & !m, j) == (BitAt(w, j) && !BitAt(m, j))
  {
  }

  lemma MergeBitAt(w: bv32, m: bv32, j: bv6)
    requires j < 32
    ensures BitAt(Join(w, m), j) == (BitAt(w, j) || BitAt(m, j))
    ensures BitAt(Cut(w, m), j) == (BitAt(w, j) && !BitAt(m, j))
  {
    hide BitAt;
    OrBitAt(w, m, j);
    AndNotBitAt(w, m, j);
  }

  /** The word with bit `s` alone. */
  function One(s: bv6): bv32
    requires s < 32
  {
    1 << s
  }

  lemma OneBitAt(s: bv6, j: bv6)
    requires s < 32 && j < 32
    ensures BitAt(One(s), j) == (j == s)
  {
  }

  lemma SetBitAt(w: bv32, s: bv6, j: bv6)
    requires s < 32 && j < 32
    ensures BitAt(With(w, s), j) == (j == s || BitAt(w, j))
    ensures BitAt(Without(w, s), j) == (j != s && BitAt(w, j))
  {
    hide BitAt, One, Join, Cut;
    OneBitAt(s, j);
    MergeBitAt(w, One(s), j);
  }

  lemma FullBitAt(j: bv6)
    requires j < 32
    ensures BitAt(FULL, j) && !BitAt(0, j)
  {
  }

  lemma LowBitAt(n: bv6, j: bv6)
    requires n < 32 && j < 32
    ensures BitAt(Low(n), j) == (j < n)
  {
  }

  lemma ShiftBitAt(m: bv32, b: bv6, j: bv6)
    requires b < 32 && j < 32
    ensures BitAt(Up(m, b), j) == (b <= j && BitAt(m, j - b))
  {
    hide BitAt, Up;
    if b <= j {
      ShiftedBit(m, b, j - b);
      assert j - b + b == j;
    } else {
      ShiftedIn(m, b, j);
    }
  }

  lemma {:induction false} ShiftedBit(m: bv32, b: bv6, k: bv6)
    requires b < 32 && k < 32 && k + b < 32
    ensures BitAt(Up(m, b), k + b) == BitAt(m, k)
    decreases b
  {
    hide BitAt, Up;
    NoShift(m);
    if b > 0 {
      var c := b - 1;
      ShiftedBit(m, c, k);
      ShiftMore(m, c);
      ShiftOnce(Up(m, c), k + c);
      assert k + c + 1 == k + b;
    }
  }

  lemma NoShift(m: bv32)
    ensures Up(m, 0) == m
  {
  }

  lemma ShiftMore(m: bv32, c: bv6)
    requires c < 31
    ensures Up(m, c + 1) == Up(Up(m, c), 1)
  {
  }

  lemma ShiftOnce(w: bv32, j: bv6)
    requires j < 31
    ensures BitAt(Up(w, 1), j + 1) == BitAt(w, j)
  {
  }

  lemma ShiftedIn(m: bv32, b: bv6, j: bv6)
    requires j < b && b < 32
    ensures !BitAt(Up(m, b), j)
  {
  }

  /** Bit `k` of a word. */
  predicate Bit(w: bv32, k: nat)
    requires k < 32
  {
    AmountBelow(k);
    BitAt(w, Amount(k))
  }

  function SetOne(w: bv32, k: nat): bv32
    requires k < 32
  {
    AmountBelow(k);
    With(w, Amount(k))
  }

  function ClearOne(w: bv32, k: nat): bv32
    requires k < 32
  {
    AmountBelow(k);
    Without(w, Amount(k))
  }

  predicate TestOne(w: bv32, k: nat)
    requires k < 32
  {
    AmountBelow(k);
    Tests(w, Amount(k))
  }

  function LowMask(bits: nat): bv32 {
    if bits >= 32 then FULL
    else
      AmountBelow(bits);
      Low(Amount(bits))
  }

  /** The mask of `n` bits that starts at bit `b` of a word. */
  function Mask(n: nat, b: nat): bv32
    requires b < 32
  {
    AmountBelow(b);
    Up(LowMask(n), Amount(b))
  }

  lemma SetBit(w: bv32, k: nat, j: nat)
    requires k < 32 && j < 32
    ensures Bit(SetOne(w, k), j) == (j == k || Bit(w, j))
    ensures Bit(ClearOne(w, k), j) == (j != k && Bit(w, j))
  {
    hide BitAt, With, Without;
    AmountOrder(j, k);
    AmountBelow(k);
    AmountBelow(j);
    SetBitAt(w, Amount(k), Amount(j));
  }

  lemma TestBit(w: bv32, k: nat)
    requires k < 32
    ensures TestOne(w, k) == Bit(w, k)
  {
    hide BitAt, Tests;
    AmountBelow(k);
    TestBitAt(w, Amount(k));
  }

  lemma FullBit(j: nat)
    requires j < 32
    ensures Bit(FULL, j) && !Bit(0, j)
  {
    AmountBelow(j);
    FullBitAt(Amount(j));
  }

  lemma LowMaskBit(n: nat, j: nat)
    requires n <= 32 && j < 32
    ensures Bit(LowMask(n), j) == (j < n)
  {
    hide BitAt, Low;
    if n == 32 {
      FullBit(j);
    } else {
      AmountBelow(n);
      AmountBelow(j);
      AmountOrder(n, j);
      LowBitAt(Amount(n), Amount(j));
    }
  }

  lemma MaskBit(n: nat, b: nat, j: nat)
    requires b < 32 && n + b <= 32 && j < 32
    ensures Bit(Mask(n, b), j) == (b <= j < b + n)
  {
    hide BitAt, LowMask, Up;
    AmountBelow(b);
    AmountBelow(j);
    AmountOrder(b, j);
    ShiftBitAt(LowMask(n), Amount(b), Amount(j));
    if b <= j {
      AmountSum(j - b, b);
      TakeAway(Amount(j - b), Amount(b), Amount(j));
      LowMaskBit(n, j - b);
    }
  }

  /** Writing through a mask writes exactly the bits the mask covers. */
  lemma WriteMask(w: bv32, n: nat, b: nat, j: nat)
    requires b < 32 && n + b <= 32 && j < 32
    ensures Bit(Join(w, Mask(n, b)), j) == (b <= j < b + n || Bit(w, j))
    ensures Bit(Cut(w, Mask(n, b)), j) == (!(b <= j < b + n) && Bit(w, j))
  {
    hide BitAt, Mask, Join, Cut;
    AmountBelow(j);
    MaskBit(n, b, j);
    MergeBitAt(w, Mask(n, b), Amount(j));
  }

  lemma AllSetAt(w: bv32)
    requires forall j: bv6 :: j < 32 ==> BitAt(w, j)
    ensures w == FULL
  {
    assert BitAt(w, 0) && BitAt(w, 1) && BitAt(w, 2) && BitAt(w, 3);
    assert BitAt(w, 4) && BitAt(w, 5) && BitAt(w, 6) && BitAt(w, 7);
    assert BitAt(w, 8) && BitAt(w, 9) && BitAt(w, 10) && BitAt(w, 11);
    assert BitAt(w, 12) && BitAt(w, 13) && BitAt(w, 14) && BitAt(w, 15);
    assert BitAt(w, 16) && BitAt(w, 17) && BitAt(w, 18) && BitAt(w, 19);
    assert BitAt(w, 20) && BitAt(w, 21) && BitAt(w, 22) && BitAt(w, 23);
    assert BitAt(w, 24) && BitAt(w, 25) && BitAt(w, 26) && BitAt(w, 27);
    assert BitAt(w, 28) && BitAt(w, 29) && BitAt(w, 30) && BitAt(w, 31);
  }

  /** A word with every bit set is the all-ones word. */
  lemma AllSet(w: bv32)
    requires forall j: nat :: j < 32 ==> Bit(w, j)
    ensures w == FULL
  {
    hide BitAt;
    forall j: bv6 | j < 32
      ensures BitAt(w, j)
    {
      CompareAsInt(32, j);
      AmountIs(j as int);
      CompareAsInt(j, Amount(j as int));
      assert Bit(w, j as int);
    }
    AllSetAt(w);
  }

  // ----- bitmaps

  /** Bit `i` of a bitmap, numbered across its words. */
  predicate Get(words: seq<bv32>, i: nat)
    requires i < 32 * |words|
  {
    Bit(words[i / 32], i % 32)
  }

  /** `words'` is `words` with the bits `lo .. hi` replaced by `v`. */
  ghost predicate Filled(words: seq<bv32>, words': seq<bv32>, lo: nat, hi: nat, v: bool) {
    && |words'| == |words|
    && forall i: nat :: i < 32 * |words| ==> Get(words', i) == if lo <= i < hi then v else Get(words, i)
  }

  /** Reads one bit of a bitmap. */
  method GetBit(bitmap: array<bv32>, index: nat) returns (value: bool)
    requires index < 32 * bitmap.Length
    ensures value == Get(bitmap[..], index)
  {
    AmountBelow(index % 32);
    value := (bitmap[index / 32] >> Amount(index % 32)) & 1 != 0;
  }

  /** Sets one bit of a bitmap in place. */
  method Set(bitmap: array<bv32>, index: nat)
    requires index < 32 * bitmap.Length
    modifies bitmap
    ensures Filled(old(bitmap[..]), bitmap[..], index, index + 1, true)
  {
    hide Bit, SetOne;
    var k, b := index / 32, index % 32;
    ghost var was := bitmap[..];
    bitmap[k] := SetOne(bitmap[k], b);
    forall i: nat | i < 32 * |was|
      ensures Get(bitmap[..], i) == if index <= i < index + 1 then true else Get(was, i)
    {
      SetBit(was[k], b, i % 32);
    }
  }

  /** Clears one bit of a bitmap in place. */
  method Clear(bitmap: array<bv32>, index: nat)
    requires index < 32 * bitmap.Length
    modifies bitmap
    ensures Filled(old(bitmap[..]), bitmap[..], index, index + 1, false)
  {
    hide Bit, ClearOne;
    var k, b := index / 32, index % 32;
    ghost var was := bitmap[..];
    bitmap[k] := ClearOne(bitmap[k], b);
    forall i: nat | i < 32 * |was|
      ensures Get(bitmap[..], i) == if index <= i < index + 1 then false else Get(was, i)
    {
      SetBit(was[k], b, i % 32);
    }
  }

  /** Writes `n` bits of one word, starting at bit `b`. */
  method WriteWord(bitmap: array<bv32>, word: nat, b: nat, n: nat, value: bool)
    requires word < bitmap.Length && b < 32 && b + n <= 32
    modifies bitmap
    ensures Filled(old(bitmap[..]), bitmap[..], 32 * word + b, 32 * word + b + n, value)
  {
    hide Bit, Mask, Join, Cut;
    ghost var was := bitmap[..];
    var mask := Mask(n, b);
    if value {
      bitmap[word] := Join(bitmap[word], mask);
    } else {
      bitmap[word] := Cut(bitmap[word], mask);
    }
    forall i: nat | i < 32 * |was|
      ensures Get(bitmap[..], i) == if 32 * word + b <= i < 32 * word + b + n then value else Get(was, i)
    {
      WriteMask(was[word], n, b, i % 32);
    }
  }

  lemma FilledChain(a: seq<bv32>, b: seq<bv32>, c: seq<bv32>, lo: nat, mid: nat, hi: nat, v: bool)
    requires lo <= mid <= hi && Filled(a, b, lo, mid, v) && Filled(b, c, mid, hi, v)
    ensures Filled(a, c, lo, hi, v)
  {
  }

  /** Writes a whole run of bits with word masks: the same as writing them one by one. */
  method WriteRegion(bitmap: array<bv32>, index: nat, blocks: nat, value: bool)
    requires index + blocks <= 32 * bitmap.Length
    modifies bitmap
    ensures Filled(old(bitmap[..]), bitmap[..], index, index + blocks, value)
  {
    hide Get;
    ghost var was := bitmap[..];
    var left, word, b := blocks, index / 32, index % 32;
    assert Filled(was, bitmap[..], index, index, value);
    if left > 0 && b > 0 {
      var count := if 32 - b > left then left else 32 - b;
      WriteWord(bitmap, word, b, count, value);
      left := left - count;
      word := word + 1;
    }
    var fill := if value then FULL else 0;
    while left >= 32
      invariant 0 <= left <= blocks
      invariant left > 0 ==> 32 * word + left == index + blocks
      invariant Filled(was, bitmap[..], index, index + blocks - left, value)
    {
      ghost var before := bitmap[..];
      bitmap[word] := fill;
      WholeWord(before, bitmap[..], word, value);
      FilledChain(was, before, bitmap[..], index, index + blocks - left, index + blocks - left + 32, value);
      word := word + 1;
      left := left - 32;
    }
    if left > 0 {
      ghost var before := bitmap[..];
      WriteWord(bitmap, word, 0, left, value);
      FilledChain(was, before, bitmap[..], index, index + blocks - left, index + blocks, value);
    }
  }

  lemma WholeWord(words: seq<bv32>, words': seq<bv32>, k: nat, v: bool)
    requires k < |words| && words' == words[k := if v then FULL else 0]
    ensures Filled(words, words', 32 * k, 32 * k + 32, v)
  {
    hide Bit;
    forall i: nat | i < 32 * |words|
      ensures Get(words', i) == if 32 * k <= i < 32 * k + 32 then v else Get(words, i)
    {
      FullBit(i % 32);
    }
  }

  /** Finds the least clear bit below `count`, skipping full words. */
  method FindFirstClear(bitmap: array<bv32>, count: nat) returns (found: bool, index: nat)
    requires count <= 32 * bitmap.Length
    ensures found ==> index < count && !Get(bitmap[..], index)
    ensures found ==> forall i: nat :: i < index ==> Get(bitmap[..], i)
    ensures !found ==> forall i: nat :: i < count ==> Get(bitmap[..], i)
  {
    hide Bit;
    var words, rem := count / 32, count % 32;
    var w := 0;
    while w < words
      invariant 0 <= w <= words
      invariant forall i: nat :: i < 32 * w ==> Get(bitmap[..], i)
    {
      var bits := bitmap[w];
      if bits != FULL {
        found, index := ScanWord(bitmap, w, 32);
        if !found {
          WordSet(bitmap[..], w);
          assert false;
        }
        return;
      }
      FullWordSet(bitmap[..], w);
      w := w + 1;
    }
    if rem == 0 {
      return false, 0;
    }
    found, index := ScanWord(bitmap, words, rem);
  }

  lemma WordSet(words: seq<bv32>, w: nat)
    requires w < |words|
    requires forall i: nat :: 32 * w <= i < 32 * w + 32 ==> Get(words, i)
    ensures words[w] == FULL
  {
    hide Bit;
    forall j: nat | j < 32
      ensures Bit(words[w], j)
    {
      assert Get(words, 32 * w + j);
    }
    AllSet(words[w]);
  }

  lemma FullWordSet(words: seq<bv32>, w: nat)
    requires w < |words| && words[w] == FULL
    ensures forall i: nat :: 32 * w <= i < 32 * w + 32 ==> Get(words, i)
  {
    hide Bit;
    forall i: nat | 32 * w <= i < 32 * w + 32
      ensures Get(words, i)
    {
      FullBit(i % 32);
    }
  }

  /** Tests the first `n` bits of one word in turn. */
  method ScanWord(bitmap: array<bv32>, w: nat, n: nat) returns (found: bool, index: nat)
    requires w < bitmap.Length && n <= 32
    ensures found ==> 32 * w <= index < 32 * w + n && !Get(bitmap[..], index)
    ensures found ==> forall i: nat :: 32 * w <= i < index ==> Get(bitmap[..], i)
    ensures !found ==> forall i: nat :: 32 * w <= i < 32 * w + n ==> Get(bitmap[..], i)
  {
    hide Bit, TestOne;
    var bits := bitmap[w];
    for bit := 0 to n
      invariant forall i: nat :: 32 * w <= i < 32 * w + bit ==> Get(bitmap[..], i)
    {
      TestBit(bits, bit);
      assert Get(bitmap[..], 32 * w + bit) == Bit(bits, bit);
      if !TestOne(bits, bit) {
        return true, 32 * w + bit;
      }
    }
    return false, 0;
  }
}
