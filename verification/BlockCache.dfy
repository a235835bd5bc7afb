/** The write-through block cache in front of an ext2 partition. */
module BlockCache {
  import opened Bytes
  import opened LruOrder

  datatype Answer = Data(bytes: seq<byte>) | Done | Failed

  datatype Access = Read(block: nat) | Write(block: nat, bytes: seq<byte>)

  /** What one access does to a partition that has no cache. */
  function Direct(disk: seq<seq<byte>>, size: nat, a: Access): (seq<seq<byte>>, Answer) {
    match a
    case Read(b) =>
      (disk, if b == 0 then Data(Zeros(size)) else if b < |disk| then Data(disk[b]) else Failed)
    case Write(b, bytes) =>
      if 0 < b < |disk| then (disk[b := bytes], Done) else (disk, Failed)
  }

  function DirectAll(disk: seq<seq<byte>>, size: nat, run: seq<Access>): (seq<seq<byte>>, seq<Answer>) {
    if run == [] then (disk, [])
    else
      var (d, rs) := DirectAll(disk, size, run[..|run| - 1]);
      var (e, r) := Direct(d, size, run[|run| - 1]);
      (e, rs + [r])
  }

  /** The bare partition answers one access after the other. */
  lemma {:induction false} DirectInTurn(disk: seq<seq<byte>>, size: nat, a: Access, run: seq<Access>)
    ensures var (d, r) := Direct(disk, size, a);
            var (e, rs) := DirectAll(d, size, run);
            DirectAll(disk, size, [a] + run) == (e, [r] + rs)
  {
    hide Direct;
    if run == [] {
      assert [a] + run == [a] && [a][..0] == [];
      assert DirectAll(disk, size, []) == (disk, []);
      var (d, r) := Direct(disk, size, a);
      assert [] + [r] == [r] + [];
    } else {
      var n := |run| - 1;
      assert ([a] + run)[..n + 1] == [a] + run[..n] && ([a] + run)[n + 1] == run[n];
      DirectInTurn(disk, size, a, run[..n]);
      var (d, r) := Direct(disk, size, a);
      var (m, rs) := DirectAll(d, size, run[..n]);
      var (e, last) := Direct(m, size, run[n]);
      assert ([r] + rs) + [last] == [r] + (rs + [last]);
    }
  }

  /** Every held copy equals the block on the disk. */
  ghost predicate Coherent(s: seq<Slot>, disk: seq<seq<byte>>) {
    forall i :: 0 <= i < |s| && s[i].valid ==> 0 < s[i].block < |disk| && s[i].data == disk[s[i].block]
  }

  ghost predicate Sized(a: Access, size: nat) {
    a.Write? ==> |a.bytes| == size
  }

  class Cache {
    const size: nat
    const slots: array<Slot>
    var clock: nat
    var disk: seq<seq<byte>>
    /** Every block used so far, oldest first. */
    ghost var used: seq<nat>

    ghost predicate Valid()
      reads this, slots
    {
      && Lru(slots[..], used) && Coherent(slots[..], disk)
      && (slots.Length > 0 ==> clock == |used|)
    }

    /** A mounted cache is empty; with no memory for its buffers it has no slots at all. */
    constructor (size: nat, count: nat, disk: seq<seq<byte>>)
      ensures Valid() && fresh(slots) && used == []
      ensures this.size == size && slots.Length == count && this.disk == disk
    {
      this.size := size;
      this.slots := new Slot[count](_ => Slot(false, 0, 0, []));
      this.clock := 0;
      this.disk := disk;
      this.used := [];
      new;
      assert forall x :: !Held(slots[..], x);
    }

    method Find(b: nat) returns (i: int)
      ensures Held(slots[..], b) <==> i >= 0
      ensures i >= 0 ==> i < slots.Length && slots[i].valid && slots[i].block == b
    {
      i := 0;
      while i < slots.Length
        invariant 0 <= i <= slots.Length
        invariant forall j :: 0 <= j < i ==> !(slots[j].valid && slots[j].block == b)
      {
        if slots[i].valid && slots[i].block == b {
          assert slots[..][i].block == b;
          return;
        }
        i := i + 1;
      }
      i := -1;
    }

    /** The first free slot, or the least recently used one when there is none. */
    method PickSlot() returns (v: int)
      ensures v < 0 <==> slots.Length == 0
      ensures v >= 0 ==> v < slots.Length
      ensures v >= 0 ==> if slots[v].valid then Full(slots[..]) && Oldest(slots[..], v)
                         else Full(slots[..v])
    {
      v := -1;
      var i := 0;
      while i < slots.Length
        invariant 0 <= i <= slots.Length && (v < 0 <==> i == 0) && v < i
        invariant Full(slots[..i])
        invariant v >= 0 ==> forall j :: 0 <= j < i ==> slots[v].stamp <= slots[j].stamp
      {
        if !slots[i].valid {
          v := i;
          return;
        }
        if v < 0 || slots[i].stamp < slots[v].stamp {
          v := i;
        }
        i := i + 1;
      }
      assert slots[..i] == slots[..];
    }

    /** Slot `i` takes the block; `used` records the use. */
    method PutAt(i: nat, b: nat, data: seq<byte>)
      requires i < slots.Length && 0 < b < |disk| && data == disk[b]
      requires Lru(slots[..], used) && clock == |used|
      requires Lru(Touch(slots[..], i, b, |used| + 1, data), used + [b])
      requires forall j :: 0 <= j < slots.Length && j != i && slots[j].valid ==>
                 0 < slots[j].block < |disk| && slots[j].data == disk[slots[j].block]
      modifies this`clock, this`used, slots
      ensures Valid() && used == old(used) + [b]
    {
      hide Lru;
      clock := clock + 1;
      slots[i] := Slot(true, b, clock, data);
      used := used + [b];
      assert slots[..] == Touch(old(slots[..]), i, b, old(|used|) + 1, data);
    }

    method Store(b: nat, data: seq<byte>)
      requires 0 < b < |disk| && data == disk[b]
      requires Lru(slots[..], used) && (slots.Length > 0 ==> clock == |used|)
      requires forall j :: 0 <= j < slots.Length && slots[j].valid && slots[j].block != b ==>
                 0 < slots[j].block < |disk| && slots[j].data == disk[slots[j].block]
      modifies this`clock, this`used, slots
      ensures Valid() && used == old(used) + [b]
    {
      hide Lru;
      var i := Find(b);
      if i >= 0 {
        Hit(slots[..], used, i, b, data);
        ShapeOf(slots[..], used);
        PutAt(i, b, data);
      } else {
        i := PickSlot();
        assert forall j :: 0 <= j < slots.Length && slots[j].valid ==> slots[j].block != b by {
          assert forall j :: 0 <= j < slots.Length ==> slots[..][j] == slots[j];
        }
        if i < 0 {
          assert slots[..] == [];
          used := used + [b];
          NoSlots(used);
        } else {
          if slots[i].valid { Evict(slots[..], used, i, b, data); } else { Fill(slots[..], used, i, b, data); }
          PutAt(i, b, data);
        }
      }
    }

    /** The disk is asked only for a block that is not among the `slots.Length` most recently used;
        `io` says whether it answers. */
    method ReadBlock(b: nat, io: bool) returns (r: Answer)
      requires Valid()
      modifies this`clock, this`used, slots
      ensures Valid()
      ensures r.Data? || r.Failed?
      ensures r.Data? ==> r == Direct(disk, size, Read(b)).1
      ensures r.Data? ==> if b == 0 then |r.bytes| == size && (forall k :: 0 <= k < size ==> r.bytes[k] == 0) else b < |disk| && r.bytes == disk[b]
      ensures r.Data? <==> b == 0 || (old(b in used && |Since(used, b)| < slots.Length)) || (io && b < |disk|)
      ensures used == if r.Data? && b != 0 then old(used) + [b] else old(used)
      ensures r.Failed? ==> slots[..] == old(slots[..]) && clock == old(clock)
    {
      hide Lru;
      if b == 0 { return Data(Zeros(size)); }
      HeldRecent(slots[..], used, b);
      var i := Find(b);
      if i >= 0 {
        var data := slots[i].data;
        Hit(slots[..], used, i, b, data);
        assert slots[..][i].valid;
        PutAt(i, b, data);
        return Data(data);
      }
      if !io || b >= |disk| { return Failed; }
      r := Data(disk[b]);
      Store(b, disk[b]);
    }

    /** A refused write changes nothing; one that reaches the disk also refreshes the held copy. */
    method WriteBlock(b: nat, data: seq<byte>, io: bool) returns (r: Answer)
      requires Valid() && |data| == size
      modifies this, slots
      ensures Valid()
      ensures r == if 0 < b < old(|disk|) && io then Done else Failed
      ensures disk == if r.Done? then old(disk)[b := data] else old(disk)
      ensures used == if r.Done? then old(used) + [b] else old(used)
      ensures r.Failed? ==> slots[..] == old(slots[..]) && clock == old(clock)
    {
      hide Lru;
      if b == 0 || !io || b >= |disk| { return Failed; }
      assert forall j :: 0 <= j < slots.Length ==> slots[..][j] == slots[j];
      disk := disk[b := data];
      Store(b, data);
      r := Done;
    }

    method Step(a: Access) returns (r: Answer)
      requires Valid() && Sized(a, size)
      modifies this, slots
      ensures Valid() && (disk, r) == Direct(old(disk), size, a)
    {
      hide Lru;
      match a
      case Read(b) => r := ReadBlock(b, true);
      case Write(b, bytes) => r := WriteBlock(b, bytes, true);
    }

    /** Over any run of accesses the cached partition answers as the bare one does. */
    method Run(run: seq<Access>) returns (rs: seq<Answer>)
      requires Valid() && forall k :: 0 <= k < |run| ==> Sized(run[k], size)
      modifies this, slots
      ensures Valid() && (disk, rs) == DirectAll(old(disk), size, run)
    {
      hide Lru;
      rs := [];
      var k := 0;
      while k < |run|
        invariant 0 <= k <= |run| && Valid()
        invariant (disk, rs) == DirectAll(old(disk), size, run[..k])
      {
        var r := Step(run[k]);
        rs := rs + [r];
        k := k + 1;
        assert run[..k][..k - 1] == run[..k - 1];
      }
      assert run[..k] == run;
    }
  }

  lemma ShapeOf(s: seq<Slot>, h: seq<nat>)
    requires Lru(s, h)
    ensures Unique(s)
  {
  }

  lemma NoSlots(h: seq<nat>)
    ensures Lru([], h)
  {
  }

  lemma HeldRecent(s: seq<Slot>, h: seq<nat>, b: nat)
    requires Lru(s, h)
    ensures Held(s, b) <==> b in h && |Since(h, b)| < |s|
  {
    if Held(s, b) {
      var i :| 0 <= i < |s| && s[i].valid && s[i].block == b;
    }
  }

  /** Sequential scans longer than the cache never hit: a block is lost once as many others were used. */
  lemma Displaced(s: seq<Slot>, h: seq<nat>, later: seq<nat>, b: nat)
    requires Lru(s, h + [b] + later) && b !in later && |set x | x in later| >= |s|
    ensures !Held(s, b)
  {
    var all := h + [b] + later;
    SinceTail(h, b, later);
    HeldRecent(s, all, b);
  }

  /** A block is held as long as fewer others than there are slots were used. */
  lemma StillHeld(s: seq<Slot>, h: seq<nat>, later: seq<nat>, b: nat)
    requires Lru(s, h + [b] + later) && b !in later && |set x | x in later| < |s|
    ensures exists i :: 0 <= i < |s| && s[i].valid && s[i].block == b
  {
    SinceTail(h, b, later);
    HeldRecent(s, h + [b] + later, b);
  }

  lemma {:induction false} SinceTail(h: seq<nat>, b: nat, later: seq<nat>)
    requires b !in later
    ensures Since(h + [b] + later, b) == (set x | x in later)
  {
    var all := h + [b] + later;
    if later == [] {
      assert all == h + [b];
      SinceSelf(h, b);
    } else {
      var front, l := later[..|later| - 1], later[|later| - 1];
      assert later == front + [l];
      SinceTail(h, b, front);
      assert all == (h + [b] + front) + [l];
      SinceAppend(h + [b] + front, l, b);
    }
  }
}
