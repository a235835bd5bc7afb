/**
 * The image builder's directories: records laid out block by block, the last of each block
 * taking the rest of it.  The driver reads them back as the same names in the same order.
 */
module DirBuilder {
  import opened Bytes
  import opened DirRecords
  import opened Directory

  datatype Item = Item(inode: word, name: Name, kind: byte)

  predicate Plain(i: Item) {
    i.inode != 0 && i.name != [] && |i.name| <= 255
  }

  function Need(items: seq<Item>): nat {
    if items == [] then 0 else Need(items[..|items| - 1]) + EntrySize(|items[|items| - 1].name|)
  }

  predicate Stands(r: Rec, i: Item) {
    r.inode == i.inode && r.kind == i.kind && r.name == i.name && EntrySize(|i.name|) <= r.size
  }

  /** The records are those of the items, in the same order. */
  predicate Matches(rs: seq<Rec>, items: seq<Item>) {
    |rs| == |items| && forall k :: 0 <= k < |rs| ==> Stands(rs[k], items[k])
  }

  lemma {:induction false} NeedOrder(items: seq<Item>, i: nat)
    requires i <= |items|
    ensures Need(items[..i]) <= Need(items)
  {
    if i < |items| {
      NeedOrder(items[..|items| - 1], i);
      assert items[..|items| - 1][..i] == items[..i];
    } else {
      assert items[..i] == items;
    }
  }

  lemma NeedNext(items: seq<Item>, i: nat)
    requires i < |items|
    ensures Need(items[..i + 1]) == Need(items[..i]) + EntrySize(|items[i].name|)
  {
    assert items[..i + 1][..i] == items[..i];
  }

  /** Part of a block is written: the chain up to `pos` is the first items, the rest is zero. */
  ghost predicate Partly(b: seq<byte>, pos: nat, items: seq<Item>) {
    && pos <= |b| && Leads(b, 0, pos) && Roomy(b, 0) && Matches(Between(b, 0, pos), items)
    && forall k :: pos <= k < |b| ==> b[k] == 0
  }

  lemma PartlyStep(b: seq<byte>, pos: nat, items: seq<Item>, i: Item, rec: nat)
    requires Partly(b, pos, items) && Plain(i) && EntrySize(|i.name|) <= rec && pos + rec <= |b| < 0x1_0000
    ensures Partly(PutRec(b, pos, Header(i.inode, rec, |i.name|, i.kind), i.name), pos + rec, items + [i])
  {
    hide SizeAt, InodeAt, NameAt, Between, Leads, Roomy, PutRec, Stands;
    var h := Header(i.inode, rec, |i.name|, i.kind);
    var n := PutRec(b, pos, h, i.name);
    PutRecReads(b, pos, h, i.name);
    LeadsOrder(b, 0, pos);
    SameHead(b, n, 0, pos);
    OneRecord(n, pos);
    ZeroTail(n, pos + rec);
    OneMore(n, 0, pos);
    StandsNew(i, rec);
  }

  lemma StandsNew(i: Item, rec: nat)
    requires EntrySize(|i.name|) <= rec
    ensures Stands(Rec(i.inode, rec, i.kind, i.name), i)
  {
  }

  lemma ZeroTail(b: seq<byte>, pos: nat)
    requires pos <= |b| && forall k :: pos <= k < |b| ==> b[k] == 0
    ensures Roomy(b, pos) && (pos < |b| ==> !Sound(b, pos))
  {
  }

  /** One block for a group of items. */
  method PackBlock(items: seq<Item>, size: nat) returns (b: seq<byte>)
    requires items != [] && size < 0x1_0000 && Need(items) <= size && forall k :: 0 <= k < |items| ==> Plain(items[k])
    ensures |b| == size && Tiles(b, 0) && Roomy(b, 0) && Matches(Records(b, 0), items)
  {
    hide Partly, PutRec;
    b := Zeros(size);
    var pos: nat := 0;
    PartlyStart(b);
    NeedNone(items);
    for i := 0 to |items|
      invariant |b| == size && Partly(b, pos, items[..i])
      invariant if i < |items| then pos == Need(items[..i]) else pos == size
    {
      NeedNext(items, i);
      NeedOrder(items, i + 1);
      var rec := EntrySize(|items[i].name|);
      if i == |items| - 1 {
        rec := size - pos;
      }
      PartlyStep(b, pos, items[..i], items[i], rec);
      assert items[..i + 1] == items[..i] + [items[i]];
      b := PutRec(b, pos, Header(items[i].inode, rec, |items[i].name|, items[i].kind), items[i].name);
      pos := pos + rec;
    }
    assert items[..|items|] == items;
    PartlyDone(b, items);
  }

  lemma NeedNone(items: seq<Item>)
    ensures Need(items[..0]) == 0
  {
  }

  lemma PartlyStart(b: seq<byte>)
    requires forall k :: 0 <= k < |b| ==> b[k] == 0
    ensures forall items: seq<Item> :: Partly(b, 0, items[..0])
  {
    ZeroTail(b, 0);
  }

  lemma PartlyDone(b: seq<byte>, items: seq<Item>)
    requires Partly(b, |b|, items)
    ensures Tiles(b, 0) && Roomy(b, 0) && Matches(Records(b, 0), items)
  {
    hide Stands;
    SplitAt(b, 0, |b|);
    assert Records(b, |b|) == [] && Tiles(b, |b|);
    assert Between(b, 0, |b|) + [] == Between(b, 0, |b|);
  }

  /**
   * All blocks of a directory: items go into the current block while they fit.  Reading the blocks
   * back gives the items in order, so a name is found exactly when it was given.
   */
  method MakeDirectory(items: seq<Item>, size: nat) returns (blocks: Blocks)
    requires 264 <= size < 0x1_0000 && forall k :: 0 <= k < |items| ==> Plain(items[k])
    ensures (forall k :: 0 <= k < |blocks| ==> blocks[k] != [] && Good(blocks[k], size)) && Matches(All(blocks), items)
    ensures AsMap(All(blocks)) == ItemMap(items) && (Different(items) ==> Consistent(blocks, size))
    ensures |All(blocks)| == |items|
    ensures forall k :: 0 <= k < |items| ==>
              All(blocks)[k].inode == items[k].inode && All(blocks)[k].kind == items[k].kind && All(blocks)[k].name == items[k].name
    ensures forall n :: n in AsMap(All(blocks)) ==> exists k :: 0 <= k < |items| && items[k].name == n
    ensures (forall i, j :: 0 <= i < j < |items| ==> items[i].name != items[j].name) ==>
              forall k :: 0 <= k < |items| ==> items[k].name in AsMap(All(blocks)) && AsMap(All(blocks))[items[k].name] == Entry(items[k].inode, items[k].kind)
  {
    hide Good, All, Need, Matches, AsMap, ItemMap, Different, Distinct;
    blocks := [];
    var from: nat, used: nat := 0, 0;
    MatchNone(items);
    for i := 0 to |items|
      invariant from <= i && used == Need(items[from..i]) && used <= size && (from == i ==> i == 0)
      invariant forall k :: 0 <= k < |blocks| ==> blocks[k] != [] && Good(blocks[k], size)
      invariant Matches(All(blocks), items[..from])
    {
      var min := EntrySize(|items[i].name|);
      if from < i && used + min > size {
        var b := PackBlock(items[from..i], size);
        PackedGood(blocks, b, items, from, i, size);
        blocks := blocks + [b];
        from, used := i, 0;
        NeedNone(items[i..]);
      }
      NeedPart(items, from, i);
      used := used + min;
    }
    if from < |items| {
      var b := PackBlock(items[from..|items|], size);
      PackedGood(blocks, b, items, from, |items|, size);
      blocks := blocks + [b];
    }
    assert items[..|items|] == items;
    BuiltNames(All(blocks), items);
    MatchesMeans(All(blocks), items);
    if forall i, j :: 0 <= i < j < |items| ==> items[i].name != items[j].name {
      forall k | 0 <= k < |items|
        ensures items[k].name in ItemMap(items) && ItemMap(items)[items[k].name] == Entry(items[k].inode, items[k].kind)
      {
        ItemOf(items, k);
      }
    }
  }

  lemma MatchesMeans(rs: seq<Rec>, items: seq<Item>)
    requires Matches(rs, items)
    ensures |rs| == |items| && forall k :: 0 <= k < |rs| ==> rs[k].inode == items[k].inode && rs[k].kind == items[k].kind && rs[k].name == items[k].name
  {
  }

  lemma MatchNone(items: seq<Item>)
    ensures Matches(All([]), items[..0]) && Need(items[0..0]) == 0
  {
  }

  lemma NeedPart(items: seq<Item>, from: nat, i: nat)
    requires from <= i < |items|
    ensures Need(items[from..i + 1]) == Need(items[from..i]) + EntrySize(|items[i].name|)
    ensures Need(items[i..i]) == 0
  {
    assert items[from..i + 1][..i - from] == items[from..i];
  }

  lemma PackedGood(blocks: Blocks, b: seq<byte>, items: seq<Item>, from: nat, i: nat, size: nat)
    requires from <= i <= |items| && (forall k :: 0 <= k < |items| ==> Plain(items[k])) && size >= 8
    requires |b| == size && Tiles(b, 0) && Roomy(b, 0) && Matches(Records(b, 0), items[from..i]) && Matches(All(blocks), items[..from])
    ensures b != [] && Good(b, size) && Matches(All(blocks + [b]), items[..i])
  {
    hide All, Records, Tiles, Roomy;
    AllJoin(blocks, [b]);
    AllOne(b);
    assert items[..i] == items[..from] + items[from..i];
  }

  // ----- what the driver finds

  function ItemMap(items: seq<Item>): map<Name, Entry> {
    if items == [] then map[] else ItemMap(items[1..])[items[0].name := Entry(items[0].inode, items[0].kind)]
  }

  ghost predicate Different(items: seq<Item>) {
    forall i, j :: 0 <= i < j < |items| ==> items[i].name != items[j].name
  }

  /** Each of different names stands for its own item. */
  lemma {:induction false} ItemOf(items: seq<Item>, k: nat)
    requires k < |items| && forall i, j :: 0 <= i < j < |items| ==> items[i].name != items[j].name
    ensures items[k].name in ItemMap(items) && ItemMap(items)[items[k].name] == Entry(items[k].inode, items[k].kind)
  {
    if k > 0 {
      ItemOf(items[1..], k - 1);
      assert items[0].name != items[k].name;
    }
  }

  /** Read by the driver, a built directory holds exactly the given names. */
  lemma {:induction false} BuiltNames(rs: seq<Rec>, items: seq<Item>)
    requires Matches(rs, items) && forall k :: 0 <= k < |items| ==> Plain(items[k])
    ensures AsMap(rs) == ItemMap(items) && (Different(items) ==> Distinct(rs))
    ensures forall n :: n in AsMap(rs) ==> exists k :: 0 <= k < |items| && items[k].name == n
  {
    if rs != [] {
      BuiltNames(rs[1..], items[1..]);
      assert items == [items[0]] + items[1..];
      assert Stands(rs[0], items[0]);
      forall n | n in AsMap(rs)
        ensures exists k :: 0 <= k < |items| && items[k].name == n
      {
        if n != items[0].name {
          var k :| 0 <= k < |items[1..]| && items[1..][k].name == n;
          assert items[k + 1].name == n;
        } else {
          assert items[0].name == n;
        }
      }
    }
  }
}
