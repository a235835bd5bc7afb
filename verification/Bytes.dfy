/** Little-endian words inside disk blocks: an indirect block is an array of 32-bit block numbers. */
module Bytes {

  type byte = x: int | 0 <= x < 256

  type word = x: int | 0 <= x < 0x1_0000_0000

  /** The 32-bit word at entry `i` of a block read as a table. */
  function Word(b: seq<byte>, i: nat): (w: word)
    requires 4 * i + 4 <= |b|
  {
    var b0: int, b1: int, b2: int, b3: int := b[4 * i], b[4 * i + 1], b[4 * i + 2], b[4 * i + 3];
    b0 + 0x100 * b1 + 0x1_0000 * b2 + 0x100_0000 * b3
  }

  /** A block read as a table of words. */
  function Table(b: seq<byte>): (t: seq<word>)
    ensures |t| == |b| / 4
    ensures forall i :: 0 <= i < |t| ==> t[i] == Word(b, i)
  {
    seq(|b| / 4, i requires 0 <= i < |b| / 4 => Word(b, i))
  }

  function WordByte(w: word, k: nat): byte
    requires k < 4
  {
    if k == 0 then w % 0x100
    else if k == 1 then w / 0x100 % 0x100
    else if k == 2 then w / 0x1_0000 % 0x100
    else w / 0x100_0000
  }

  /** The bytes that store a table. */
  function Pack(t: seq<word>): (b: seq<byte>)
    ensures |b| == 4 * |t|
    ensures forall k :: 0 <= k < |b| ==> b[k] == WordByte(t[k / 4], k % 4)
  {
    seq(4 * |t|, k requires 0 <= k < 4 * |t| => WordByte(t[k / 4], k % 4))
  }

  function Zeros(n: nat): (b: seq<byte>)
    ensures |b| == n
    ensures forall k :: 0 <= k < n ==> b[k] == 0
  {
    seq(n, _ => 0)
  }

  /** A block with some bytes replaced. */
  function Splice(block: seq<byte>, at: nat, chunk: seq<byte>): (r: seq<byte>)
    requires at + |chunk| <= |block|
    ensures |r| == |block|
    ensures forall k :: 0 <= k < |r| ==> r[k] == if at <= k < at + |chunk| then chunk[k - at] else block[k]
  {
    block[..at] + chunk + block[at + |chunk|..]
  }

  lemma WordOfBytes(w: word)
    ensures var b0: int, b1: int, b2: int, b3: int := WordByte(w, 0), WordByte(w, 1), WordByte(w, 2), WordByte(w, 3);
            b0 + 0x100 * b1 + 0x1_0000 * b2 + 0x100_0000 * b3 == w
  {
    assert w / 0x1_0000 == w / 0x100 / 0x100;
    assert w / 0x100_0000 == w / 0x1_0000 / 0x100;
  }

  lemma PackedWord(t: seq<word>, i: nat)
    requires i < |t|
    ensures Word(Pack(t), i) == t[i]
  {
    WordOfBytes(t[i]);
    forall k: nat | k < 4
      ensures Pack(t)[4 * i + k] == WordByte(t[i], k)
    {
      assert (4 * i + k) / 4 == i && (4 * i + k) % 4 == k;
    }
  }

  /** Storing a table and reading it back is the identity. */
  lemma TableOfPack(t: seq<word>)
    ensures Table(Pack(t)) == t
  {
    forall i | 0 <= i < |t|
      ensures Word(Pack(t), i) == t[i]
    {
      PackedWord(t, i);
    }
  }

  /** A zero-filled block is a table of zero entries. */
  lemma TableOfZeros(n: nat)
    ensures Table(Zeros(n)) == seq(n / 4, _ => 0)
  {
  }
}
