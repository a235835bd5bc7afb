/** The run allocator behind physical frames: next-fit and highest-fit search over a bitmap. */
module BitmapAllocator {
  import opened BitWords

  /** Blocks `start .. start + n` are all free. */
  ghost predicate FreeRun(words: seq<bv32>, start: nat, n: nat) {
    start + n <= 32 * |words| && forall i: nat :: start <= i < start + n ==> !Get(words, i)
  }

  ghost predicate UsedRun(words: seq<bv32>, start: nat, n: nat) {
    start + n <= 32 * |words| && forall i: nat :: start <= i < start + n ==> Get(words, i)
  }

  /** A run is free when each of its bits is clear, and used when each is set. */
  lemma RunsAre(words: seq<bv32>, start: nat, n: nat)
    ensures FreeRun(words, start, n) <==> start + n <= 32 * |words| && forall i: nat :: start <= i < start + n ==> !Get(words, i)
    ensures UsedRun(words, start, n) <==> start + n <= 32 * |words| && forall i: nat :: start <= i < start + n ==> Get(words, i)
  {
  }

  /** How many of the first `n` blocks are free. */
  ghost function FreeCount(words: seq<bv32>, n: nat): nat
    requires n <= 32 * |words|
  {
    if n == 0 then 0 else FreeCount(words, n - 1) + if Get(words, n - 1) then 0 else 1
  }

  /** Filling a free run with used marks takes exactly its length from the free count. */
  lemma {:induction false} FreeCountFill(a: seq<bv32>, b: seq<bv32>, lo: nat, hi: nat, n: nat)
    requires lo <= hi <= 32 * |a| && n <= 32 * |a|
    requires Filled(a, b, lo, hi, true) && FreeRun(a, lo, hi - lo)
    ensures FreeCount(a, n) == FreeCount(b, n) + if n <= lo then 0 else if n <= hi then n - lo else hi - lo
  {
    hide Get;
    if n > 0 {
      FreeCountFill(a, b, lo, hi, n - 1);
    }
  }

  lemma {:induction false} FreeCountBound(words: seq<bv32>, n: nat)
    requires n <= 32 * |words|
    ensures FreeCount(words, n) <= n
  {
    if n > 0 {
      FreeCountBound(words, n - 1);
    }
  }

  /** A free run cannot be longer than the free count. */
  lemma {:induction false} FreeRunBound(words: seq<bv32>, start: nat, len: nat, n: nat)
    requires start + len <= n <= 32 * |words| && FreeRun(words, start, len)
    ensures len <= FreeCount(words, n)
  {
    hide Get;
    if n > 0 {
      if start + len < n {
        FreeRunBound(words, start, len, n - 1);
      } else if len > 0 {
        FreeRunBound(words, start, len - 1, n - 1);
      }
    }
  }

  lemma {:induction false} FreeCountClear(words: seq<bv32>, n: nat)
    requires n <= 32 * |words| && FreeRun(words, 0, n)
    ensures FreeCount(words, n) == n
  {
    hide Get;
    if n > 0 {
      FreeCountClear(words, n - 1);
    }
  }

  lemma AllClear(words: seq<bv32>)
    requires forall k :: 0 <= k < |words| ==> words[k] == 0
    ensures FreeRun(words, 0, 32 * |words|)
  {
    hide Bit;
    forall i: nat | i < 32 * |words|
      ensures !Get(words, i)
    {
      FullBit(i % 32);
    }
  }

  /** Searches `begin .. end` upward for the first free run, jumping over full words. */
  method FirstFitInRange(bitmap: array<bv32>, blocks: nat, begin: nat, end: nat) returns (found: bool, out: nat)
    requires blocks > 0 && end <= 32 * bitmap.Length
    ensures found ==> begin <= out && out + blocks <= end && FreeRun(bitmap[..], out, blocks)
    ensures found ==> forall s: nat :: begin <= s < out ==> !FreeRun(bitmap[..], s, blocks)
    ensures !found ==> forall s: nat :: begin <= s && s + blocks <= end ==> !FreeRun(bitmap[..], s, blocks)
  {
    hide Get, Bit, TestOne;
    if begin >= end {
      return false, 0;
    }
    ghost var words := bitmap[..];
    var bottom, size, block := begin, 0, begin;
    while block < end
      invariant begin <= block <= end
      invariant 0 <= size < blocks && begin <= block - size
      invariant size > 0 ==> bottom == block - size
      invariant FreeRun(words, block - size, size)
      invariant forall s: nat :: begin <= s < block - size ==> !FreeRun(words, s, blocks)
    {
      var bit, word := block % 32, block / 32;
      var bits := bitmap[word];
      if bit == 0 && bits == FULL && end - block >= 32 {
        FullWordSet(words, word);
        NoRunOver(words, block - size, block, block + 32, blocks);
        size := 0;
        block := block + 32;
        continue;
      }
      BitTested(words, block);
      if TestOne(bits, bit) {
        NoRunOver(words, block - size, block, block + 1, blocks);
        size := 0;
        block := block + 1;
        continue;
      }
      if size == 0 {
        bottom := block;
      }
      size := size + 1;
      block := block + 1;
      if size == blocks {
        return true, bottom;
      }
    }
    return false, 0;
  }

  lemma BitTested(words: seq<bv32>, block: nat)
    requires block < 32 * |words|
    ensures TestOne(words[block / 32], block % 32) == Get(words, block)
  {
    TestBit(words[block / 32], block % 32);
  }

  /** No free run starts below `hi` once `lo .. hi` is used and `lo` is within reach of every start. */
  lemma NoRunOver(words: seq<bv32>, from: nat, lo: nat, hi: nat, blocks: nat)
    requires from <= lo < hi <= 32 * |words| && lo - from < blocks
    requires forall i: nat :: lo <= i < hi ==> Get(words, i)
    ensures forall s: nat :: from <= s < hi ==> !FreeRun(words, s, blocks)
  {
    hide Get;
    forall s: nat | from <= s < hi
      ensures !FreeRun(words, s, blocks)
    {
      var u := if s < lo then lo else s;
      assert Get(words, u);
    }
  }

  /** Searches downward for the highest free run, jumping over full words. */
  method LastFit(bitmap: array<bv32>, blockCount: nat, blocks: nat) returns (found: bool, out: nat)
    requires blocks > 0 && 32 * bitmap.Length - 32 < blockCount <= 32 * bitmap.Length
    ensures found ==> out + blocks <= blockCount && FreeRun(bitmap[..], out, blocks)
    ensures found ==> forall s: nat :: out < s && s + blocks <= blockCount ==> !FreeRun(bitmap[..], s, blocks)
    ensures !found ==> forall s: nat :: s + blocks <= blockCount ==> !FreeRun(bitmap[..], s, blocks)
  {
    hide Get, Bit, TestOne;
    ghost var words := bitmap[..];
    var size, top := 0, blockCount;
    var word := bitmap.Length;
    while word > 0
      invariant 0 <= word <= bitmap.Length
      invariant DownScan(words, blockCount, blocks, size, top, 32 * word)
    {
      var w := word - 1;
      if bitmap[w] == FULL {
        FullWordSet(words, w);
        NoRunOver(words, 32 * w, 32 * w, 32 * w + 32, blocks);
        size := 0;
        top := 32 * w;
        word := w;
        continue;
      }
      var bit := 32;
      while bit > 0
        invariant 0 <= bit <= 32
        invariant DownScan(words, blockCount, blocks, size, top, 32 * w + bit)
      {
        var block := 32 * w + bit - 1;
        bit := bit - 1;
        if block >= blockCount {
          size := 0;
          top := block;
          continue;
        }
        BitTested(words, block);
        if TestOne(bitmap[w], bit) {
          NoRunOver(words, block, block, block + 1, blocks);
          size := 0;
          top := block;
          continue;
        }
        size := size + 1;
        if size == blocks {
          return true, top - blocks;
        }
      }
      word := w;
    }
    return false, 0;
  }

  /** What the downward scan knows when it has looked at every block from `at` up. */
  ghost predicate DownScan(words: seq<bv32>, blockCount: nat, blocks: nat, size: int, top: int, at: nat) {
    && 0 <= size < blocks
    && (at < blockCount ==> top == at + size <= blockCount && FreeRun(words, at, size))
    && (at < blockCount ==> top == blockCount || (top < 32 * |words| && Get(words, top)))
    && (at >= blockCount ==> size == 0 && (at == blockCount ==> top == blockCount))
    && forall s: nat :: at <= s && s + blocks <= blockCount ==> !FreeRun(words, s, blocks)
  }

  function DivRoundUp(a: nat, b: nat): (q: nat)
    requires b > 0
    ensures a <= q * b < a + b
  {
    assert a + b - 1 == (a + b - 1) / b * b + (a + b - 1) % b;
    (a + b - 1) / b
  }

  /** The free counter after a free: never above the block count. */
  function ClampedSum(free: nat, blocks: nat, count: nat): nat {
    if blocks > count - free then count else free + blocks
  }

  /** Two runs of blocks share no block. */
  ghost predicate Apart(p: (nat, nat), q: (nat, nat)) {
    p.0 + p.1 <= q.0 || q.0 + q.1 <= p.0
  }

  /** The runs handed out are in use, lie inside the chunk and share no block. */
  ghost predicate LiveRuns(words: seq<bv32>, live: set<(nat, nat)>, count: nat) {
    && (forall p :: p in live ==> p.1 > 0 && p.0 + p.1 <= count && UsedRun(words, p.0, p.1))
    && (forall p, q :: p in live && q in live && p != q ==> Apart(p, q))
  }

  lemma UsedApartFree(words: seq<bv32>, p: (nat, nat), q: (nat, nat))
    requires p.1 > 0 && q.1 > 0 && UsedRun(words, p.0, p.1) && FreeRun(words, q.0, q.1)
    ensures Apart(p, q)
  {
    hide Get;
    var i := if p.0 < q.0 then q.0 else p.0;
    assert i < p.0 + p.1 ==> Get(words, i);
  }

  lemma LiveAfterTake(a: seq<bv32>, b: seq<bv32>, live: set<(nat, nat)>, count: nat, p: (nat, nat))
    requires LiveRuns(a, live, count) && p.1 > 0 && p.0 + p.1 <= count && FreeRun(a, p.0, p.1)
    requires Filled(a, b, p.0, p.0 + p.1, true)
    ensures LiveRuns(b, live + {p}, count)
  {
    hide Get;
    forall q | q in live
      ensures Apart(q, p) && UsedRun(b, q.0, q.1)
    {
      UsedApartFree(a, q, p);
    }
  }

  lemma LiveAfterFree(a: seq<bv32>, b: seq<bv32>, live: set<(nat, nat)>, count: nat, p: (nat, nat))
    requires LiveRuns(a, live, count) && Filled(a, b, p.0, p.0 + p.1, false)
    ensures LiveRuns(b, (set q | q in live && Apart(q, p)), count)
  {
    hide Get;
  }

  /** No run handed out holds one of the first `n` blocks, where the bitmap itself lies. */
  ghost predicate OffBitmap(live: set<(nat, nat)>, n: nat) {
    forall p :: p in live ==> Apart(p, (0, n))
  }

  lemma TakeOffBitmap(words: seq<bv32>, live: set<(nat, nat)>, n: nat, p: (nat, nat))
    requires n > 0 && p.1 > 0 && FreeRun(words, p.0, p.1)
    ensures OffBitmap(live + {p}, n) <==> OffBitmap(live, n) && n <= p.0
    ensures UsedRun(words, 0, n) ==> n <= p.0
  {
    hide Get;
    if UsedRun(words, 0, n) {
      UsedApartFree(words, (0, n), p);
    }
    assert p in live + {p};
  }

  /** Where the next-fit search puts a run: the lowest place at or after `start`, else the lowest below it. */
  ghost predicate NextFit(words: seq<bv32>, count: nat, blocks: nat, start: nat, out: nat) {
    && out + blocks <= count && FreeRun(words, out, blocks)
    && (forall s: nat :: s < out && (out < start || start <= s) ==> !FreeRun(words, s, blocks))
    && (out < start ==> forall s: nat :: start <= s && s + blocks <= count ==> !FreeRun(words, s, blocks))
  }

  lemma MulOrder(a: int, b: int, c: nat)
    ensures a <= b ==> a * c <= b * c
  {
  }

  lemma BlockInChunk(start: nat, size: nat, blockSize: nat, address: nat)
    requires blockSize > 0 && start <= address
    ensures (address - start) / blockSize < size / blockSize ==> address < start + size
  {
    var q, r := (address - start) / blockSize, size / blockSize;
    MulOrder(q + 1, r, blockSize);
    assert address - start == q * blockSize + (address - start) % blockSize;
    assert size == r * blockSize + size % blockSize;
  }

  class Allocator {
    const chunkStart: nat
    const chunkSize: nat
    const blockSize: nat
    const blockCount: nat
    const bitmapBlocks: nat
    const bitmap: array<bv32>
    var freeBlocks: nat
    var nextFit: nat
    /** The runs handed out and not freed since. */
    ghost var live: set<(nat, nat)>

    ghost predicate Valid()
      reads this, bitmap
    {
      && blockSize > 0 && blockCount == chunkSize / blockSize
      && 0 < bitmapBlocks < blockCount
      && 32 * bitmap.Length - 32 < blockCount <= 32 * bitmap.Length
      && freeBlocks == FreeCount(bitmap[..], blockCount)
      && LiveRuns(bitmap[..], live, blockCount)
    }

    /** The blocks that hold the bitmap itself are marked used. */
    ghost predicate Protected()
      reads this, bitmap
    {
      UsedRun(bitmap[..], 0, bitmapBlocks)
    }

    /** The bitmap is marked used and nobody was given a block of it. */
    ghost predicate Safe()
      reads this, bitmap
    {
      Protected() && OffBitmap(live, bitmapBlocks)
    }

    /** Where the next search begins. */
    function Rover(): nat
      reads this
    {
      if nextFit >= blockCount then 0 else nextFit
    }

    /** An allocation request of `blocks` can be met. */
    ghost predicate Fits(blocks: nat)
      reads this, bitmap
    {
      exists s: nat :: s + blocks <= blockCount && FreeRun(bitmap[..], s, blocks)
    }

    /** A request can be met exactly when there is such a run; the search starts at the rover, unless that is past the end. */
    lemma FitsIs(blocks: nat)
      ensures Fits(blocks) <==> exists s: nat :: s + blocks <= blockCount && FreeRun(bitmap[..], s, blocks)
      ensures Rover() == if nextFit < blockCount then nextFit else 0
    {
    }

    function Address(block: nat): nat {
      chunkStart + block * blockSize
    }

    /** Lays the bitmap out at the start of the chunk and marks its own blocks used. */
    constructor (chunkStart: nat, chunkSize: nat, blockSize: nat)
      requires blockSize > 0 && chunkSize / blockSize > 0
      requires DivRoundUp(4 * DivRoundUp(chunkSize / blockSize, 32), blockSize) < chunkSize / blockSize
      ensures Valid() && Protected() && fresh(bitmap)
      ensures this.chunkStart == chunkStart && this.chunkSize == chunkSize && this.blockSize == blockSize
      ensures live == {} && freeBlocks == blockCount - bitmapBlocks
      ensures FreeRun(bitmap[..], bitmapBlocks, blockCount - bitmapBlocks)
    {
      hide Get, Bit;
      this.chunkStart, this.chunkSize, this.blockSize := chunkStart, chunkSize, blockSize;
      var count := chunkSize / blockSize;
      var words := DivRoundUp(count, 32);
      var reserved := DivRoundUp(4 * words, blockSize);
      blockCount, bitmapBlocks := count, reserved;
      bitmap := new bv32[words](_ => 0);
      freeBlocks := count - reserved;
      nextFit := reserved;
      live := {};
      new;
      ghost var zero := bitmap[..];
      AllClear(zero);
      WriteRegion(bitmap, 0, reserved, true);
      FreeCountClear(zero, count);
      FreeCountFill(zero, bitmap[..], 0, reserved, count);
    }

    /** Where the next-fit policy places a run: from the roving pointer up, then from the bottom. */
    method FirstFit(blocks: nat) returns (found: bool, out: nat)
      requires Valid() && blocks > 0
      ensures found <==> Fits(blocks)
      ensures found ==> NextFit(bitmap[..], blockCount, blocks, Rover(), out)
    {
      hide Get, Bit;
      var start := if nextFit >= blockCount then 0 else nextFit;
      found, out := FirstFitInRange(bitmap, blocks, start, blockCount);
      if found {
        return;
      }
      if start > 0 {
        found, out := FirstFitInRange(bitmap, blocks, 0, start);
        if found {
          return;
        }
      }
      found, out := FirstFitInRange(bitmap, blocks, 0, blockCount);
    }

    /** Marks a free run used and accounts for it. */
    method Take(first: nat, blocks: nat)
      requires Valid() && first + blocks <= blockCount && FreeRun(bitmap[..], first, blocks) && blocks > 0
      modifies this`freeBlocks, this`live, bitmap
      ensures Valid() && Filled(old(bitmap[..]), bitmap[..], first, first + blocks, true)
      ensures freeBlocks == old(freeBlocks) - blocks && live == old(live) + {(first, blocks)}
      ensures old(Protected()) ==> Protected()
      ensures OffBitmap(live, bitmapBlocks) <==> old(OffBitmap(live, bitmapBlocks)) && bitmapBlocks <= first
      ensures old(Protected()) ==> bitmapBlocks <= first
    {
      hide Get, Bit;
      ghost var was := bitmap[..];
      TakeOffBitmap(was, live, bitmapBlocks, (first, blocks));
      FreeRunBound(was, first, blocks, blockCount);
      WriteRegion(bitmap, first, blocks, true);
      FreeCountFill(was, bitmap[..], first, first + blocks, blockCount);
      freeBlocks := freeBlocks - blocks;
      LiveAfterTake(was, bitmap[..], live, blockCount, (first, blocks));
      live := live + {(first, blocks)};
    }

    /** Reserves a run of blocks: fails exactly when no free run is long enough. */
    method Reserve(blocks: nat) returns (ok: bool, first: nat, address: nat)
      requires Valid()
      modifies this`freeBlocks, this`nextFit, this`live, bitmap
      ensures Valid() && (old(Protected()) ==> Protected()) && (old(Safe()) ==> Safe())
      ensures ok ==> (OffBitmap(live, bitmapBlocks) <==> old(OffBitmap(live, bitmapBlocks)) && bitmapBlocks <= first)
      ensures ok <==> blocks > 0 && old(Fits(blocks))
      ensures ok ==> address == chunkStart + first * blockSize && first + blocks <= blockCount
      ensures !ok ==> unchanged(this) && unchanged(bitmap)
      ensures ok ==> address == Address(first) && NextFit(old(bitmap[..]), blockCount, blocks, old(Rover()), first)
      ensures ok ==> nextFit == if first + blocks == blockCount then 0 else first + blocks
      ensures ok ==> Filled(old(bitmap[..]), bitmap[..], first, first + blocks, true)
      ensures ok ==> live == old(live) + {(first, blocks)} && freeBlocks == old(freeBlocks) - blocks
    {
      hide Get, Bit;
      ok, first, address := false, 0, 0;
      if blocks == 0 {
        return;
      }
      if blocks > freeBlocks {
        NoRoom(blocks);
        return;
      }
      ok, first := FirstFit(blocks);
      if !ok {
        return;
      }
      Take(first, blocks);
      nextFit := first + blocks;
      if nextFit >= blockCount {
        nextFit := 0;
      }
      address := Address(first);
    }

    lemma NoRoom(blocks: nat)
      requires Valid() && blocks > freeBlocks
      ensures !Fits(blocks)
    {
      hide Get, Bit;
      forall s: nat | s + blocks <= blockCount
        ensures !FreeRun(bitmap[..], s, blocks)
      {
        if FreeRun(bitmap[..], s, blocks) {
          FreeRunBound(bitmap[..], s, blocks, blockCount);
        }
      }
    }

    /** Reserves the highest free run that is long enough. */
    method High(blocks: nat) returns (ok: bool, first: nat, address: nat)
      requires Valid()
      modifies this`freeBlocks, this`live, bitmap
      ensures Valid() && (old(Protected()) ==> Protected()) && (old(Safe()) ==> Safe())
      ensures ok ==> (OffBitmap(live, bitmapBlocks) <==> old(OffBitmap(live, bitmapBlocks)) && bitmapBlocks <= first)
      ensures ok <==> blocks > 0 && old(Fits(blocks))
      ensures ok ==> address == chunkStart + first * blockSize && first + blocks <= blockCount
      ensures !ok ==> unchanged(this) && unchanged(bitmap)
      ensures ok ==> address == Address(first) && first + blocks <= blockCount && old(FreeRun(bitmap[..], first, blocks))
      ensures ok ==> forall s: nat :: first < s && s + blocks <= blockCount ==> !old(FreeRun(bitmap[..], s, blocks))
      ensures ok ==> Filled(old(bitmap[..]), bitmap[..], first, first + blocks, true)
      ensures ok ==> live == old(live) + {(first, blocks)} && freeBlocks == old(freeBlocks) - blocks
    {
      hide Get, Bit;
      ok, first, address := false, 0, 0;
      if blocks == 0 {
        return;
      }
      if blocks > freeBlocks {
        NoRoom(blocks);
        return;
      }
      ok, first := LastFit(bitmap, blockCount, blocks);
      if !ok {
        return;
      }
      Take(first, blocks);
      address := Address(first);
    }

    /** The block an address inside the chunk names. */
    function BlockOf(address: nat): (b: nat)
      requires chunkStart <= address && blockSize > 0
      ensures b * blockSize <= address - chunkStart < b * blockSize + blockSize
    {
      var offset := address - chunkStart;
      assert offset == offset / blockSize * blockSize + offset % blockSize;
      (address - chunkStart) / blockSize
    }

    /**
     * Frees a run given by address.  Succeeds exactly for an aligned address inside the chunk
     * whose whole run is in use; the clamp on the counter never applies.  The blocks of the
     * bitmap itself stay reserved exactly when the run lies above them.
     */
    method Free(address: nat, blocks: nat) returns (ok: bool)
      requires Valid()
      modifies this`freeBlocks, this`nextFit, this`live, bitmap
      ensures Valid()
      ensures ok <==>
        && blocks > 0 && chunkStart <= address && (address - chunkStart) % blockSize == 0
        && BlockOf(address) + blocks <= blockCount && old(UsedRun(bitmap[..], BlockOf(address), blocks))
      ensures !ok ==> unchanged(this) && unchanged(bitmap)
      ensures ok ==> freeBlocks == old(freeBlocks) + blocks
      ensures ok ==> Filled(old(bitmap[..]), bitmap[..], BlockOf(address), BlockOf(address) + blocks, false)
      ensures ok ==> live == (set p | p in old(live) && Apart(p, (BlockOf(address), blocks)))
      ensures ok ==> nextFit == if BlockOf(address) < old(nextFit) then BlockOf(address) else old(nextFit)
      ensures ok && old(Protected()) ==> (Protected() <==> bitmapBlocks <= BlockOf(address))
      ensures old(OffBitmap(live, bitmapBlocks)) ==> OffBitmap(live, bitmapBlocks)
    {
      hide Get, Bit;
      ok := false;
      if blocks == 0 || address < chunkStart {
        return;
      }
      BlockInChunk(chunkStart, chunkSize, blockSize, address);
      if address >= chunkStart + chunkSize {
        return;
      }
      if (address - chunkStart) % blockSize != 0 {
        return;
      }
      var first := BlockOf(address);
      if first >= blockCount || blocks > blockCount - first {
        return;
      }
      ok := AllUsed(first, blocks);
      if ok {
        Release(first, blocks);
      }
    }

    /** The double-free check: looks at every block of the run. */
    method AllUsed(first: nat, blocks: nat) returns (used: bool)
      requires Valid() && first + blocks <= blockCount
      ensures used == UsedRun(bitmap[..], first, blocks)
    {
      hide Get, Bit;
      for i := 0 to blocks
        invariant UsedRun(bitmap[..], first, i)
      {
        used := GetBit(bitmap, first + i);
        if !used {
          return;
        }
      }
      return true;
    }

    /** Clears a used run and accounts for it. */
    method Release(first: nat, blocks: nat)
      requires Valid() && blocks > 0 && first + blocks <= blockCount && UsedRun(bitmap[..], first, blocks)
      modifies this`freeBlocks, this`nextFit, this`live, bitmap
      ensures Valid() && Filled(old(bitmap[..]), bitmap[..], first, first + blocks, false)
      ensures freeBlocks == old(freeBlocks) + blocks
      ensures live == (set p | p in old(live) && Apart(p, (first, blocks)))
      ensures nextFit == if first < old(nextFit) then first else old(nextFit)
      ensures old(Protected()) ==> (Protected() <==> bitmapBlocks <= first)
    {
      hide Get, Bit;
      ghost var was := bitmap[..];
      WriteRegion(bitmap, first, blocks, false);
      ghost var now := bitmap[..];
      assert Filled(now, was, first, first + blocks, true);
      FreeCountFill(now, was, first, first + blocks, blockCount);
      FreeCountBound(now, blockCount);
      LiveAfterFree(was, now, live, blockCount, (first, blocks));
      live := set p | p in live && Apart(p, (first, blocks));
      if first < nextFit {
        nextFit := first;
      }
      freeBlocks := ClampedSum(freeBlocks, blocks, blockCount);
      assert first < bitmapBlocks ==> !Get(now, first);
    }
  }

  // ----- whole runs

  datatype Call = ReserveCall(blocks: nat) | HighCall(blocks: nat) | FreeCall(address: nat, blocks: nat)

  datatype Snapshot = Snapshot(words: seq<bv32>, live: set<(nat, nat)>)

  ghost predicate SafeAt(s: Snapshot, n: nat) {
    UsedRun(s.words, 0, n) && OffBitmap(s.live, n)
  }

  /** What a call that answered `ok` did. */
  ghost predicate Did(s: Snapshot, call: Call, ok: bool, t: Snapshot, start: nat, size: nat, count: nat)
    requires size > 0
  {
    if !ok then t == s
    else if call.FreeCall? then
      call.address >= start &&
      var b := (call.address - start) / size;
      UsedRun(s.words, b, call.blocks) && Filled(s.words, t.words, b, b + call.blocks, false)
      && t.live == set p | p in s.live && Apart(p, (b, call.blocks))
    else
      exists f: nat :: f + call.blocks <= count && FreeRun(s.words, f, call.blocks)
        && Filled(s.words, t.words, f, f + call.blocks, true) && t.live == s.live + {(f, call.blocks)}
  }

  /** A free that succeeds on a block of the bitmap itself. */
  predicate HitsBitmap(call: Call, ok: bool, start: nat, size: nat, n: nat)
    requires size > 0
  {
    ok && call.FreeCall? && start <= call.address && (call.address - start) / size < n
  }

  method Step(a: Allocator, call: Call) returns (ok: bool)
    requires a.Valid()
    modifies a, a.bitmap
    ensures a.Valid()
    ensures Did(old(Snapshot(a.bitmap[..], a.live)), call, ok, Snapshot(a.bitmap[..], a.live), a.chunkStart, a.blockSize, a.blockCount)
    ensures old(a.Safe()) ==> (a.Safe() <==> !HitsBitmap(call, ok, a.chunkStart, a.blockSize, a.bitmapBlocks))
  {
    hide Get, Bit, FreeCount, LiveRuns, UsedRun, FreeRun, NextFit, OffBitmap, Allocator.Fits;
    var first, address;
    match call {
      case ReserveCall(blocks) =>
        ok, first, address := a.Reserve(blocks);
        if ok { NextFitIs(old(a.bitmap[..]), a.blockCount, blocks, old(a.Rover()), first); }
      case HighCall(blocks) =>
        ok, first, address := a.High(blocks);
      case FreeCall(at, blocks) =>
        ok := a.Free(at, blocks);
    }
  }

  lemma NextFitIs(words: seq<bv32>, count: nat, blocks: nat, start: nat, out: nat)
    requires NextFit(words, count, blocks, start, out)
    ensures out + blocks <= count && FreeRun(words, out, blocks)
  {
  }

  /**
   * Over any run of calls from a safe allocator, the bitmap stays marked and nobody is given a block of it
   * at every point, exactly when no free in the run succeeds on a block of the bitmap.
   */
  method Run(a: Allocator, calls: seq<Call>) returns (oks: seq<bool>, ghost trace: seq<Snapshot>)
    requires a.Valid() && a.Safe()
    modifies a, a.bitmap
    ensures a.Valid() && |oks| == |calls| && |trace| == |calls| + 1
    ensures trace[0] == old(Snapshot(a.bitmap[..], a.live)) && trace[|calls|] == Snapshot(a.bitmap[..], a.live)
    ensures forall k :: 0 <= k < |calls| ==>
              Did(trace[k], calls[k], oks[k], trace[k + 1], a.chunkStart, a.blockSize, a.blockCount)
    ensures (forall k :: 0 <= k < |trace| ==> SafeAt(trace[k], a.bitmapBlocks)) <==>
            forall k :: 0 <= k < |calls| ==> !HitsBitmap(calls[k], oks[k], a.chunkStart, a.blockSize, a.bitmapBlocks)
  {
    hide Get, Bit, FreeCount, LiveRuns, UsedRun, FreeRun, OffBitmap, Did, HitsBitmap;
    oks := [];
    trace := [Snapshot(a.bitmap[..], a.live)];
    ghost var hit := false;
    while |oks| < |calls|
      invariant a.Valid() && |oks| <= |calls| && |trace| == |oks| + 1
      invariant trace[0] == old(Snapshot(a.bitmap[..], a.live)) && trace[|oks|] == Snapshot(a.bitmap[..], a.live)
      invariant forall k :: 0 <= k < |oks| ==>
                  Did(trace[k], calls[k], oks[k], trace[k + 1], a.chunkStart, a.blockSize, a.blockCount)
      invariant !hit ==> forall k :: 0 <= k < |trace| ==> SafeAt(trace[k], a.bitmapBlocks)
      invariant !hit ==> forall k :: 0 <= k < |oks| ==> !HitsBitmap(calls[k], oks[k], a.chunkStart, a.blockSize, a.bitmapBlocks)
      invariant hit ==> exists k :: 0 <= k < |trace| && !SafeAt(trace[k], a.bitmapBlocks)
      invariant hit ==> exists k :: 0 <= k < |oks| && HitsBitmap(calls[k], oks[k], a.chunkStart, a.blockSize, a.bitmapBlocks)
      decreases |calls| - |oks|
    {
      var n := |oks|;
      ghost var wasHit, before := hit, trace;
      assert !hit ==> SafeAt(trace[n], a.bitmapBlocks);
      var ok := Step(a, calls[n]);
      oks := oks + [ok];
      trace := trace + [Snapshot(a.bitmap[..], a.live)];
      hit := hit || HitsBitmap(calls[n], ok, a.chunkStart, a.blockSize, a.bitmapBlocks);
      if hit {
        if wasHit {
          var k :| 0 <= k < |before| && !SafeAt(before[k], a.bitmapBlocks);
          assert trace[k] == before[k];
        } else {
          assert !SafeAt(trace[n + 1], a.bitmapBlocks);
        }
      }
    }
  }

  /** In every safe allocator the first block of the chunk can be freed, which unprotects the bitmap. */
  method FreesItsBitmap(a: Allocator) returns (ok: bool)
    requires a.Valid() && a.Safe()
    modifies a, a.bitmap
    ensures a.Valid() && ok && !a.Protected() && a.nextFit == 0
    ensures FreeRun(a.bitmap[..], 0, 1) && a.blockCount > 0 && OffBitmap(a.live, a.bitmapBlocks)
  {
    hide FreeCount, LiveRuns, OffBitmap, Bit;
    assert (a.chunkStart - a.chunkStart) / a.blockSize == 0 && (a.chunkStart - a.chunkStart) % a.blockSize == 0;
    ok := a.Free(a.chunkStart, 1);
  }

  /** The next reservation of one block then hands out the bitmap: the chunk's own start. */
  method HandsOutItsBitmap(a: Allocator) returns (freed: bool, ok: bool, address: nat)
    requires a.Valid() && a.Safe()
    modifies a, a.bitmap
    ensures a.Valid() && freed && ok && address == a.chunkStart && (0, 1) in a.live && !OffBitmap(a.live, a.bitmapBlocks)
  {
    hide FreeCount, LiveRuns, Bit, Get;
    freed := FreesItsBitmap(a);
    var first;
    ok, first, address := a.Reserve(1);
    assert first == 0;
  }

  /** Refused exactly when the chunk is missing or leaves no block beside the bitmap. */
  method Create(chunkStart: nat, chunkSize: nat, blockSize: nat) returns (a: Allocator?)
    ensures a == null <==>
            chunkStart == 0 || blockSize == 0 || chunkSize / blockSize == 0
            || DivRoundUp(4 * DivRoundUp(chunkSize / blockSize, 32), blockSize) >= chunkSize / blockSize
    ensures a != null ==> fresh(a) && fresh(a.bitmap) && a.Valid() && a.Safe() && a.live == {}
    ensures a != null ==> a.chunkStart == chunkStart && a.chunkSize == chunkSize && a.blockSize == blockSize
  {
    if chunkStart == 0 || chunkSize == 0 || blockSize == 0 {
      return null;
    }
    var count := chunkSize / blockSize;
    if count == 0 {
      return null;
    }
    var reserved := DivRoundUp(4 * DivRoundUp(count, 32), blockSize);
    if reserved == 0 || reserved >= count {
      return null;
    }
    a := new Allocator(chunkStart, chunkSize, blockSize);
  }
}
