/**
 * A directory as the driver edits it: blocks of chained records in file order.  Lookup, insertion,
 * removal and replacement are those of a map from names to inode numbers and types.
 */
module Directory {
  import opened Bytes
  import opened DirRecords

  type Blocks = seq<seq<byte>>
  type Listing = map<Name, Entry>

  /** All records in the order a lookup meets them; an unmapped block has none. */
  function All(bs: Blocks): seq<Rec> {
    if bs == [] then [] else All(bs[..|bs| - 1]) + Records(bs[|bs| - 1], 0)
  }

  predicate AllFine(rs: seq<Rec>) {
    forall k :: 0 <= k < |rs| ==> Fine(rs[k])
  }

  /** Either a hole, or a block whose records fill it, each with room for its name. */
  predicate Good(b: seq<byte>, size: nat) {
    b == [] || (|b| == size && Tiles(b, 0) && Roomy(b, 0) && AllFine(Records(b, 0)))
  }

  ghost predicate Consistent(bs: Blocks, size: nat) {
    (forall i :: 0 <= i < |bs| ==> Good(bs[i], size)) && Distinct(All(bs))
  }

  lemma {:induction false} AllJoin(a: Blocks, b: Blocks)
    ensures All(a + b) == All(a) + All(b)
  {
    hide Records;
    if b == [] {
      assert a + b == a;
    } else {
      var n := |b| - 1;
      assert (a + b)[..|a| + n] == a + b[..n];
      AllJoin(a, b[..n]);
      Regroup(All(a), All(b[..n]), Records(b[n], 0));
    }
  }

  lemma AllOne(b: seq<byte>)
    ensures All([b]) == Records(b, 0)
  {
    assert [b][..0] == [];
  }

  /** The records before, in and after block `i`. */
  lemma AllAt(bs: Blocks, i: nat, b: seq<byte>)
    requires i < |bs|
    ensures All(bs[i := b]) == All(bs[..i]) + Records(b, 0) + All(bs[i + 1..])
  {
    hide Records, All;
    assert bs[i := b] == bs[..i] + [b] + bs[i + 1..];
    AllJoin(bs[..i] + [b], bs[i + 1..]);
    AllJoin(bs[..i], [b]);
    AllOne(b);
  }

  lemma AllHere(bs: Blocks, i: nat)
    requires i < |bs|
    ensures All(bs) == All(bs[..i]) + Records(bs[i], 0) + All(bs[i + 1..])
  {
    AllAt(bs, i, bs[i]);
    assert bs[i := bs[i]] == bs;
  }

  /** A live record with this name at this place. */
  predicate Names(b: seq<byte>, pos: nat, name: Name) {
    Leads(b, 0, pos) && Sound(b, pos) && InodeAt(b, pos) != 0 && NameAt(b, pos) == name
  }

  lemma FineNames(rs: seq<Rec>)
    requires AllFine(rs)
    ensures [] !in AsMap(rs)
  {
    if rs != [] {
      FineNames(rs[1..]);
    }
  }

  /** Looks a name up in one block. */
  method FindIn(b: seq<byte>, name: Name) returns (found: bool, pos: nat)
    requires name != []
    ensures found == (name in AsMap(Records(b, 0)))
    ensures found ==> Names(b, pos, name)
  {
    hide AsMap, InodeAt, SizeAt, NameAt, Records, RecAt;
    pos := 0;
    EmptyMap();
    while pos + 8 <= |b|
      invariant pos <= |b| && Leads(b, 0, pos) && name !in AsMap(Between(b, 0, pos))
      decreases |b| - pos
    {
      if SizeAt(b, pos) < 8 || SizeAt(b, pos) > |b| - pos {
        break;
      }
      NameLength(b, pos, name);
      if InodeAt(b, pos) != 0 && b[pos + 6] == |name| && NameAt(b, pos) == name {
        FoundIn(b, pos, name);
        return true, pos;
      }
      NotHere(b, pos, name);
      pos := pos + SizeAt(b, pos);
    }
    NotIn(b, pos, name);
    found := false;
  }

  /** The first record of a block with room for a new one. */
  method FindRoom(b: seq<byte>, need: nat) returns (found: bool, pos: nat)
    requires Roomy(b, 0)
    ensures found ==> Leads(b, 0, pos) && Sound(b, pos) && HasRoom(RecAt(b, pos), need)
    ensures !found ==> forall k :: 0 <= k < |Records(b, 0)| ==> !HasRoom(Records(b, 0)[k], need)
    ensures found ==> RecAt(b, pos).size >= need + if RecAt(b, pos).inode == 0 then 0 else EntrySize(|RecAt(b, pos).name|)
    ensures !found ==> forall k :: 0 <= k < |Records(b, 0)| ==>
              Records(b, 0)[k].size < need + if Records(b, 0)[k].inode == 0 then 0 else EntrySize(|Records(b, 0)[k].name|)
  {
    hide InodeAt, SizeAt, NameAt, Records, RecAt, EntrySize, Roomy;
    pos := 0;
    while pos + 8 <= |b|
      invariant pos <= |b| && Leads(b, 0, pos)
      invariant forall k :: 0 <= k < |Between(b, 0, pos)| ==> !HasRoom(Between(b, 0, pos)[k], need)
      decreases |b| - pos
    {
      if SizeAt(b, pos) < 8 || SizeAt(b, pos) > |b| - pos {
        break;
      }
      RoomIs(b, pos, need);
      if InodeAt(b, pos) == 0 && SizeAt(b, pos) >= need {
        return true, pos;
      }
      if InodeAt(b, pos) != 0 && SizeAt(b, pos) >= EntrySize(b[pos + 6]) + need {
        return true, pos;
      }
      OneMore(b, 0, pos);
      pos := pos + SizeAt(b, pos);
    }
    RoomEnd(b, pos);
    found := false;
  }

  /** Whether the records of a block are sound and live ones are only the two dots. */
  method OnlyDots(b: seq<byte>) returns (only: bool)
    requires Roomy(b, 0)
    ensures only <==> Unbroken(b, 0) && DotsOnly(Records(b, 0))
  {
    hide InodeAt, SizeAt, Records, RecAt, DotOrDead;
    var pos: nat := 0;
    while pos + 8 <= |b|
      invariant pos <= |b| && Leads(b, 0, pos) && DotsOnly(Between(b, 0, pos)) && (Unbroken(b, 0) <==> Unbroken(b, pos))
      decreases |b| - pos
    {
      BreakHere(b, pos);
      if SizeAt(b, pos) < 8 || SizeAt(b, pos) > |b| - pos {
        return false;
      }
      RoomyHere(b, pos);
      DotIs(b, pos);
      OneMore(b, 0, pos);
      if InodeAt(b, pos) != 0 && b[pos + 6] != 0 {
        var dot := b[pos + 6] == 1 && NameAt(b, pos) == DOT;
        var dotdot := b[pos + 6] == 2 && NameAt(b, pos) == DOTDOT;
        if !dot && !dotdot {
          NotOnly(b, pos);
          return false;
        }
      }
      pos := pos + SizeAt(b, pos);
    }
    RoomEnd(b, pos);
    only := true;
  }

  const DIRECTORY: byte := 2

  lemma DotsBlock(size: nat, self: word, parent: word)
    requires 264 <= size < 0x1_0000 && self != 0 && parent != 0
    ensures var b := PutRec(Zeros(size), 0, Header(self, EntrySize(1), 1, DIRECTORY), DOT);
            var n := PutRec(b, EntrySize(1), Header(parent, size - EntrySize(1), 2, DIRECTORY), DOTDOT);
            && Consistent([n], size)
            && AsMap(All([n])) == Dots(self, parent)
  {
    hide SizeAt, InodeAt, NameAt, PutRec, AsMap, Records, Tiles, Roomy, Distinct, All;
    var used := EntrySize(1);
    var b := PutRec(Zeros(size), 0, Header(self, used, 1, DIRECTORY), DOT);
    var n := PutRec(b, used, Header(parent, size - used, 2, DIRECTORY), DOTDOT);
    PutRecReads(Zeros(size), 0, Header(self, used, 1, DIRECTORY), DOT);
    PutRecReads(b, used, Header(parent, size - used, 2, DIRECTORY), DOTDOT);
    HeadKept(b, n, 0, used);
    TwoWhole(n, used);
    AllOne(n);
    var d, p := RecAt(n, 0), RecAt(n, used);
    MapJoin([d], [p]);
    MapOne(d);
    MapOne(p);
  }

  lemma TwoWhole(b: seq<byte>, q: nat)
    requires Sound(b, 0) && SizeAt(b, 0) == q && Sound(b, q) && q + SizeAt(b, q) == |b|
    requires 8 + b[6] <= q && 8 + b[q + 6] <= SizeAt(b, q)
    ensures Tiles(b, 0) && Roomy(b, 0) && Records(b, 0) == [RecAt(b, 0)] + [RecAt(b, q)]
  {
    hide SizeAt, RecAt;
    assert Tiles(b, |b|) && Roomy(b, |b|) && Records(b, |b|) == [];
    assert Tiles(b, q) && Roomy(b, q) && Records(b, q) == [RecAt(b, q)];
  }

  const DOT: Name := [46]
  const DOTDOT: Name := [46, 46]

  /** The names of a new directory. */
  ghost function Dots(self: word, parent: word): Listing {
    map[DOT := Entry(self, DIRECTORY), DOTDOT := Entry(parent, DIRECTORY)]
  }

  /** Dead, nameless, or one of the two dots. */
  predicate DotOrDead(r: Rec) {
    r.inode == 0 || r.name == [] || r.name == DOT || r.name == DOTDOT
  }

  /** No name but the two dots. */
  ghost predicate NamesOnlyDots(m: map<Name, Entry>) {
    forall n :: n in m ==> n == DOT || n == DOTDOT
  }

  /** The two dots are one and two bytes of value 46. */
  lemma OnlyDotsIs(m: map<Name, Entry>)
    ensures NamesOnlyDots(m) <==> forall n :: n in m ==> n == [46] || n == [46, 46]
  {
  }

  predicate DotsOnly(rs: seq<Rec>) {
    forall k :: 0 <= k < |rs| ==> DotOrDead(rs[k])
  }

  /** The chain does not run into an unsound record. */
  predicate Unbroken(b: seq<byte>, pos: nat)
    decreases |b| - pos
  {
    pos + 8 > |b| || (Sound(b, pos) && Unbroken(b, pos + SizeAt(b, pos)))
  }

  lemma BreakHere(b: seq<byte>, pos: nat)
    requires pos + 8 <= |b|
    ensures Unbroken(b, pos) <==> Sound(b, pos) && Unbroken(b, pos + SizeAt(b, pos))
  {
  }

  lemma DotIs(b: seq<byte>, pos: nat)
    requires pos + 8 <= |b|
    ensures DotOrDead(RecAt(b, pos)) <==>
            || InodeAt(b, pos) == 0 || NameAt(b, pos) == []
            || (b[pos + 6] == 1 && NameAt(b, pos) == DOT) || (b[pos + 6] == 2 && NameAt(b, pos) == DOTDOT)
    ensures b[pos + 6] == 0 ==> NameAt(b, pos) == []
  {
  }

  lemma RoomyHere(b: seq<byte>, pos: nat)
    requires Roomy(b, 0) && Leads(b, 0, pos) && Sound(b, pos)
    ensures 8 + b[pos + 6] <= SizeAt(b, pos) && |NameAt(b, pos)| == b[pos + 6]
  {
    hide SizeAt;
    LeadsOrder(b, 0, pos);
    SameHead(b, b, 0, pos);
  }

  lemma NotOnly(b: seq<byte>, pos: nat)
    requires Leads(b, 0, pos) && Sound(b, pos) && !DotOrDead(RecAt(b, pos))
    ensures !DotsOnly(Records(b, 0))
  {
    hide DotOrDead, RecAt, SizeAt;
    SplitAt(b, 0, pos);
    assert Records(b, 0)[|Between(b, 0, pos)|] == RecAt(b, pos);
  }

  lemma NothingButDots()
    ensures DotsOnly([])
  {
  }

  lemma {:induction false} TilesUnbroken(b: seq<byte>, pos: nat)
    requires Tiles(b, pos)
    ensures Unbroken(b, pos)
    decreases |b| - pos
  {
    if pos != |b| {
      TilesUnbroken(b, pos + SizeAt(b, pos));
    }
  }

  lemma UnbrokenBlock(b: seq<byte>, size: nat)
    requires Good(b, size)
    ensures Unbroken(b, 0)
  {
    if b != [] {
      TilesUnbroken(b, 0);
    }
  }

  lemma BlockDots(bs: Blocks, i: nat)
    requires i < |bs| && DotsOnly(All(bs[..i]))
    ensures DotsOnly(Records(bs[i], 0)) ==> DotsOnly(All(bs[..i + 1]))
    ensures !DotsOnly(Records(bs[i], 0)) ==> !DotsOnly(All(bs))
  {
    hide All, Records, DotOrDead;
    AllHere(bs, i);
    assert bs[..i + 1] == bs[..i] + [bs[i]];
    AllJoin(bs[..i], [bs[i]]);
    AllOne(bs[i]);
    if k :| 0 <= k < |Records(bs[i], 0)| && !DotOrDead(Records(bs[i], 0)[k]) {
      assert All(bs)[|All(bs[..i])| + k] == Records(bs[i], 0)[k];
    }
  }

  lemma {:induction false} FineAll(bs: Blocks, size: nat)
    requires forall i :: 0 <= i < |bs| ==> Good(bs[i], size)
    ensures AllFine(All(bs))
  {
    hide Records, Tiles, Roomy, Fine;
    if bs != [] {
      FineAll(bs[..|bs| - 1], size);
      NoRecords();
    }
  }

  lemma {:induction false} DotNames(rs: seq<Rec>)
    ensures AllFine(rs) ==> (DotsOnly(rs) <==> NamesOnlyDots(AsMap(rs)))
  {
    if rs != [] {
      DotNames(rs[1..]);
      if AllFine(rs) {
        assert rs == [rs[0]] + rs[1..];
        MapJoin([rs[0]], rs[1..]);
        MapOne(rs[0]);
        assert DotsOnly(rs) <==> DotOrDead(rs[0]) && DotsOnly(rs[1..]);
        hide AsMap;
      }
    }
  }

  /** Room for a record of `need` bytes: a dead record, or the space behind a live one's name. */
  predicate HasRoom(r: Rec, need: nat) {
    if r.inode == 0 then r.size >= need else r.size >= EntrySize(|r.name|) + need
  }

  predicate NoRoom(b: seq<byte>, need: nat) {
    forall k :: 0 <= k < |Records(b, 0)| ==> !HasRoom(Records(b, 0)[k], need)
  }

  predicate RoomSomewhere(bs: Blocks, need: nat) {
    exists i :: 0 <= i < |bs| && !NoRoom(bs[i], need)
  }

  lemma EmptyMap()
    ensures AsMap([]) == map[]
  {
  }

  lemma NoBlocks()
    ensures forall bs: Blocks :: bs[..0] == [] && All([]) == []
  {
  }

  lemma NameLength(b: seq<byte>, pos: nat, name: Name)
    requires pos + 8 <= |b| && name != []
    ensures NameAt(b, pos) == name ==> b[pos + 6] == |name|
  {
  }

  lemma FoundIn(b: seq<byte>, pos: nat, name: Name)
    requires Names(b, pos, name)
    ensures name in AsMap(Records(b, 0))
  {
    hide AsMap, InodeAt, SizeAt, NameAt, Between, Leads, Distinct;
    SplitAt(b, 0, pos);
    var tail := Records(b, pos + SizeAt(b, pos));
    MapJoin(Between(b, 0, pos), Records(b, pos));
    MapJoin([RecAt(b, pos)], tail);
    MapOne(RecAt(b, pos));
  }

  lemma NotHere(b: seq<byte>, pos: nat, name: Name)
    requires Leads(b, 0, pos) && Sound(b, pos) && name !in AsMap(Between(b, 0, pos))
    requires InodeAt(b, pos) == 0 || NameAt(b, pos) != name
    ensures Leads(b, 0, pos + SizeAt(b, pos)) && name !in AsMap(Between(b, 0, pos + SizeAt(b, pos)))
  {
    hide AsMap, InodeAt, SizeAt, NameAt, Between, Leads, Distinct;
    OneMore(b, 0, pos);
    MapJoin(Between(b, 0, pos), [RecAt(b, pos)]);
    MapOne(RecAt(b, pos));
  }

  lemma NotIn(b: seq<byte>, pos: nat, name: Name)
    requires Leads(b, 0, pos) && !Sound(b, pos) && name !in AsMap(Between(b, 0, pos))
    ensures name !in AsMap(Records(b, 0))
  {
    hide AsMap, Between, Leads;
    SplitAt(b, 0, pos);
    assert Records(b, pos) == [];
    assert Between(b, 0, pos) + [] == Between(b, 0, pos);
  }

  lemma NoEmptyName(bs: Blocks, size: nat)
    requires forall i :: 0 <= i < |bs| ==> Good(bs[i], size)
    ensures [] !in AsMap(All(bs))
  {
    hide AsMap, Records, Tiles, Roomy;
    if bs == [] {
      EmptyMap();
    } else {
      var n := |bs| - 1;
      NoEmptyName(bs[..n], size);
      MapJoin(All(bs[..n]), Records(bs[n], 0));
      if bs[n] == [] {
        NoRecords();
        EmptyMap();
      } else {
        FineNames(Records(bs[n], 0));
      }
    }
  }

  lemma NoRecords()
    ensures Records([], 0) == []
  {
  }

  lemma InBlock(bs: Blocks, i: nat, name: Name)
    requires i < |bs| && name !in AsMap(All(bs[..i]))
    ensures name in AsMap(Records(bs[i], 0)) ==> name in AsMap(All(bs))
    ensures name !in AsMap(Records(bs[i], 0)) ==> name !in AsMap(All(bs[..i + 1]))
  {
    hide AsMap, Records, All, Distinct;
    AllHere(bs, i);
    MapJoin(All(bs[..i]) + Records(bs[i], 0), All(bs[i + 1..]));
    MapJoin(All(bs[..i]), Records(bs[i], 0));
    assert bs[..i + 1] == bs[..i] + [bs[i]];
    AllJoin(bs[..i], [bs[i]]);
    AllOne(bs[i]);
  }

  // ----- editing

  /** The records before place `p` of block `i`, and those from place `e` on. */
  function Pre(bs: Blocks, i: nat, p: nat): seq<Rec>
    requires i < |bs| && Leads(bs[i], 0, p)
  {
    All(bs[..i]) + Between(bs[i], 0, p)
  }

  function Post(bs: Blocks, i: nat, e: nat): seq<Rec>
    requires i < |bs|
  {
    Records(bs[i], e) + All(bs[i + 1..])
  }

  /** Rewriting some records of one block changes the list there and nowhere else. */
  lemma EditBlock(bs: Blocks, size: nat, i: nat, b: seq<byte>, p: nat, e: nat)
    requires i < |bs| && bs[i] != [] && Good(bs[i], size) && Leads(bs[i], 0, p) && Leads(bs[i], p, e) && p <= e <= |bs[i]| == |b|
    requires forall k :: 0 <= k < |b| && !(p <= k < e) ==> b[k] == bs[i][k]
    requires Leads(b, p, e) && (Roomy(b, e) ==> Roomy(b, p)) && AllFine(Between(b, p, e))
    ensures Good(b, size)
    ensures All(bs) == Pre(bs, i, p) + Between(bs[i], p, e) + Post(bs, i, e)
    ensures All(bs[i := b]) == Pre(bs, i, p) + Between(b, p, e) + Post(bs, i, e)
  {
    hide All, Records, Between, Leads, Tiles, Roomy, Fine;
    Edit(bs[i], b, p, e);
    AllHere(bs, i);
    AllAt(bs, i, b);
    Nested(All(bs[..i]), Between(bs[i], 0, p), Between(bs[i], p, e), Records(bs[i], e), All(bs[i + 1..]));
    Nested(All(bs[..i]), Between(bs[i], 0, p), Between(b, p, e), Records(bs[i], e), All(bs[i + 1..]));
    FineParts(Between(bs[i], 0, p), Between(bs[i], p, e), Records(bs[i], e), Between(b, p, e));
  }

  lemma Nested(a: seq<Rec>, b: seq<Rec>, c: seq<Rec>, d: seq<Rec>, e: seq<Rec>)
    ensures a + (b + c + d) + e == a + b + c + (d + e)
  {
  }

  lemma FineParts(a: seq<Rec>, b: seq<Rec>, c: seq<Rec>, b': seq<Rec>)
    requires AllFine(a + b + c) && AllFine(b')
    ensures AllFine(a + b' + c)
  {
    hide Fine;
    var x, y := a + b + c, a + b' + c;
    forall k | 0 <= k < |y|
      ensures Fine(y[k])
    {
      if k < |a| {
        assert y[k] == x[k];
      } else if k < |a| + |b'| {
        assert y[k] == b'[k - |a|];
      } else {
        assert y[k] == x[k - |b'| + |b|];
      }
    }
  }

  lemma OneRecord(b: seq<byte>, p: nat)
    requires Sound(b, p)
    ensures Leads(b, p, p + SizeAt(b, p)) && Between(b, p, p + SizeAt(b, p)) == [RecAt(b, p)]
    ensures 8 + b[p + 6] <= SizeAt(b, p) ==> (Roomy(b, p + SizeAt(b, p)) ==> Roomy(b, p))
  {
    hide SizeAt, RecAt;
    var e := p + SizeAt(b, p);
    assert Leads(b, e, e) && Between(b, e, e) == [];
  }

  lemma RoomyAt(b: seq<byte>, size: nat, p: nat)
    requires Good(b, size) && b != [] && Leads(b, 0, p) && Sound(b, p)
    ensures 8 + b[p + 6] <= SizeAt(b, p) && Fine(RecAt(b, p)) && p + SizeAt(b, p) <= |b|
  {
    hide SizeAt, RecAt, Fine;
    LeadsOrder(b, 0, p);
    SameHead(b, b, 0, p);
    SplitAt(b, 0, p);
    assert Records(b, 0)[|Between(b, 0, p)|] == RecAt(b, p);
  }

  /** One record names another inode, or none. */
  lemma Altered(bs: Blocks, size: nat, i: nat, pos: nat, name: Name, inode: word, kind: byte)
    requires Consistent(bs, size) && i < |bs| && Names(bs[i], pos, name) && size < 0x1_0000
    ensures var h := HeaderAt(bs[i], pos);
            var n := bs[i := PutHeader(bs[i], pos, h.(inode := inode, kind := kind))];
            && Consistent(n, size) && name in AsMap(All(bs)) && AsMap(All(bs))[name] == Entry(h.inode, h.kind)
            && AsMap(All(n)) == if inode == 0 then AsMap(All(bs)) - {name} else AsMap(All(bs))[name := Entry(inode, kind)]
  {
    hide All, Records, Leads, Between, Tiles, Roomy, AsMap, Distinct, InodeAt, SizeAt, NameAt, PutHeader;
    var b, h := bs[i], HeaderAt(bs[i], pos);
    var e := pos + h.size;
    var b' := PutHeader(b, pos, h.(inode := inode, kind := kind));
    RoomyAt(b, size, pos);
    PutHeaderReads(b, pos, h.(inode := inode, kind := kind));
    OneRecord(b, pos);
    OneRecord(b', pos);
    EditBlock(bs, size, i, b', pos, e);
    Alter(Pre(bs, i, pos), RecAt(b, pos), Post(bs, i, e), RecAt(b', pos));
  }

  // ----- entering a name

  lemma RoomyBlock(b: seq<byte>, size: nat)
    requires Good(b, size)
    ensures Roomy(b, 0)
  {
  }

  lemma RoomIs(b: seq<byte>, pos: nat, need: nat)
    requires Roomy(b, 0) && Leads(b, 0, pos) && Sound(b, pos)
    ensures HasRoom(RecAt(b, pos), need) <==>
            if InodeAt(b, pos) == 0 then SizeAt(b, pos) >= need else SizeAt(b, pos) >= EntrySize(b[pos + 6]) + need
  {
    hide InodeAt, SizeAt, EntrySize;
    LeadsOrder(b, 0, pos);
    SameHead(b, b, 0, pos);
  }

  lemma RoomEnd(b: seq<byte>, pos: nat)
    requires Leads(b, 0, pos) && !Sound(b, pos)
    ensures Records(b, 0) == Between(b, 0, pos)
  {
    SplitAt(b, 0, pos);
    assert Records(b, pos) == [];
  }

  lemma RoomThere(bs: Blocks, i: nat, pos: nat, need: nat)
    requires i < |bs| && Leads(bs[i], 0, pos) && Sound(bs[i], pos) && HasRoom(RecAt(bs[i], pos), need)
    ensures RoomSomewhere(bs, need)
  {
    hide HasRoom, RecAt;
    SplitAt(bs[i], 0, pos);
    assert Records(bs[i], 0)[|Between(bs[i], 0, pos)|] == RecAt(bs[i], pos);
    assert !NoRoom(bs[i], need);
  }

  /** Puts a record where there is room for it. */
  method Enter(b: seq<byte>, pos: nat, name: Name, inode: word, kind: byte, need: nat) returns (n: seq<byte>)
    requires |b| < 0x1_0000 && Roomy(b, 0) && Leads(b, 0, pos) && Sound(b, pos) && HasRoom(RecAt(b, pos), need)
    requires need == EntrySize(|name|) && name != [] && |name| <= 255 && inode != 0
    ensures Written(b, pos, n, name, inode, kind)
  {
    hide InodeAt, SizeAt, NameAt, Leads, Between, Roomy, PutRec, PutHeader;
    RoomIs(b, pos, need);
    var h := HeaderAt(b, pos);
    if h.inode == 0 {
      n := PutRec(b, pos, h.(inode := inode, nameLen := |name|, kind := kind), name);
      ReusedRoom(b, pos, name, inode, kind);
    } else {
      var used := EntrySize(h.nameLen);
      n := PutRec(b, pos + used, Header(inode, h.size - used, |name|, kind), name);
      var h' := HeaderAt(n, pos);
      n := PutHeader(n, pos, h'.(size := used));
      SplitRoom(b, pos, name, inode, kind);
    }
  }

  /** In place of one record there are records with the same names and the new one. */
  ghost predicate Written(b: seq<byte>, pos: nat, n: seq<byte>, name: Name, inode: word, kind: byte)
    requires Sound(b, pos)
  {
    var e := pos + SizeAt(b, pos);
    && |n| == |b| && (forall k :: 0 <= k < |b| && !(pos <= k < e) ==> n[k] == b[k])
    && Leads(n, pos, e) && (Roomy(n, e) ==> Roomy(n, pos)) && (Fine(RecAt(b, pos)) ==> AllFine(Between(n, pos, e)))
    && (InodeAt(b, pos) == 0 ==> Between(n, pos, e) == [Rec(inode, SizeAt(b, pos), kind, name)])
    && (InodeAt(b, pos) != 0 ==> SizeAt(b, pos) >= EntrySize(b[pos + 6]))
    && (InodeAt(b, pos) != 0 ==>
          Between(n, pos, e) == [RecAt(b, pos).(size := EntrySize(b[pos + 6])), Rec(inode, SizeAt(b, pos) - EntrySize(b[pos + 6]), kind, name)])
  }

  lemma ReusedRoom(b: seq<byte>, pos: nat, name: Name, inode: word, kind: byte)
    requires |b| < 0x1_0000 && Sound(b, pos) && InodeAt(b, pos) == 0 && SizeAt(b, pos) >= EntrySize(|name|)
    requires name != [] && |name| <= 255 && inode != 0
    ensures Written(b, pos, PutRec(b, pos, HeaderAt(b, pos).(inode := inode, nameLen := |name|, kind := kind), name), name, inode, kind)
  {
    hide InodeAt, SizeAt, NameAt, Leads, Between, Roomy, PutRec;
    var h := HeaderAt(b, pos).(inode := inode, nameLen := |name|, kind := kind);
    var n := PutRec(b, pos, h, name);
    PutRecReads(b, pos, h, name);
    OneRecord(n, pos);
  }

  lemma SplitRoom(b: seq<byte>, pos: nat, name: Name, inode: word, kind: byte)
    requires |b| < 0x1_0000 && Roomy(b, 0) && Leads(b, 0, pos) && Sound(b, pos)
    requires InodeAt(b, pos) != 0 && SizeAt(b, pos) >= EntrySize(b[pos + 6]) + EntrySize(|name|)
    requires name != [] && |name| <= 255 && inode != 0
    ensures var h := HeaderAt(b, pos);
            var used := EntrySize(h.nameLen);
            var m := PutRec(b, pos + used, Header(inode, h.size - used, |name|, kind), name);
            Written(b, pos, PutHeader(m, pos, HeaderAt(m, pos).(size := used)), name, inode, kind)
  {
    hide InodeAt, SizeAt, NameAt, Leads, Between, Roomy, PutRec, PutHeader;
    var h := HeaderAt(b, pos);
    var used := EntrySize(h.nameLen);
    var m := PutRec(b, pos + used, Header(inode, h.size - used, |name|, kind), name);
    PutRecReads(b, pos + used, Header(inode, h.size - used, |name|, kind), name);
    HeadKept(b, m, pos, used);
    var n := PutHeader(m, pos, HeaderAt(m, pos).(size := used));
    PutHeaderReads(m, pos, HeaderAt(m, pos).(size := used));
    RecKept(m, n, pos + used, name);
    NameIsLong(b, pos);
    TwoRecords(n, pos, pos + used, pos + h.size);
  }

  lemma NameIsLong(b: seq<byte>, pos: nat)
    requires pos + 8 <= |b| && pos + 8 + b[pos + 6] <= |b|
    ensures |NameAt(b, pos)| == b[pos + 6]
  {
  }

  lemma HeadKept(b: seq<byte>, m: seq<byte>, pos: nat, used: nat)
    requires |m| == |b| && pos + used <= |b| && pos + 8 <= |b| && 8 + b[pos + 6] <= used
    requires forall k :: pos <= k < pos + used ==> m[k] == b[k]
    ensures HeaderAt(m, pos) == HeaderAt(b, pos) && NameAt(m, pos) == NameAt(b, pos)
  {
    assert NameAt(m, pos) == NameAt(b, pos);
  }

  lemma RecKept(m: seq<byte>, n: seq<byte>, p: nat, name: Name)
    requires |n| == |m| && p + 8 <= |m| && NameAt(m, p) == name && p + 8 + m[p + 6] <= |m|
    requires forall k :: p <= k < |m| ==> n[k] == m[k]
    ensures RecAt(n, p) == RecAt(m, p) && HeaderAt(n, p) == HeaderAt(m, p)
  {
    assert NameAt(n, p) == NameAt(m, p);
  }

  lemma TwoRecords(b: seq<byte>, p: nat, q: nat, e: nat)
    requires Sound(b, p) && Sound(b, q) && q == p + SizeAt(b, p) && e == q + SizeAt(b, q)
    ensures Leads(b, p, e) && Between(b, p, e) == [RecAt(b, p), RecAt(b, q)]
    ensures 8 + b[p + 6] <= SizeAt(b, p) && 8 + b[q + 6] <= SizeAt(b, q) ==> (Roomy(b, e) ==> Roomy(b, p))
  {
    hide SizeAt, RecAt;
    assert Leads(b, e, e) && Between(b, e, e) == [];
    assert Leads(b, q, e) && Between(b, q, e) == [RecAt(b, q)];
  }

  /** The directory after a name was entered. */
  lemma Entered(bs: Blocks, size: nat, i: nat, pos: nat, n: seq<byte>, name: Name, inode: word, kind: byte)
    requires Consistent(bs, size) && i < |bs| && Leads(bs[i], 0, pos) && Sound(bs[i], pos) && inode != 0
    requires name !in AsMap(All(bs)) && Written(bs[i], pos, n, name, inode, kind)
    ensures Consistent(bs[i := n], size) && AsMap(All(bs[i := n])) == AsMap(All(bs))[name := Entry(inode, kind)]
  {
    hide All, Records, Leads, Between, Tiles, Roomy, AsMap, Distinct, InodeAt, SizeAt, NameAt;
    var b := bs[i];
    var e := pos + SizeAt(b, pos);
    RoomyAt(b, size, pos);
    OneRecord(b, pos);
    EditBlock(bs, size, i, n, pos, e);
    EnteredMap(b, pos, n, name, inode, kind, Pre(bs, i, pos), Post(bs, i, e));
  }

  lemma EnteredMap(b: seq<byte>, pos: nat, n: seq<byte>, name: Name, inode: word, kind: byte, x: seq<Rec>, y: seq<Rec>)
    requires Sound(b, pos) && Written(b, pos, n, name, inode, kind) && inode != 0
    requires Distinct(x + [RecAt(b, pos)] + y) && name !in AsMap(x + [RecAt(b, pos)] + y)
    ensures var mid := Between(n, pos, pos + SizeAt(b, pos));
            && Distinct(x + mid + y)
            && AsMap(x + mid + y) == AsMap(x + [RecAt(b, pos)] + y)[name := Entry(inode, kind)]
  {
    hide Leads, Between, Roomy, AsMap, Distinct, SizeAt, NameAt, AllFine;
    var r := RecAt(b, pos);
    var mid := Between(n, pos, pos + SizeAt(b, pos));
    MapOne(r);
    MapJoin(x + [r], y);
    MapJoin(x, [r]);
    var added := mid[|mid| - 1];
    MapOne(added);
    if r.inode == 0 {
      Insert(x, [r], y, mid, added);
    } else {
      MapOne(mid[0]);
      MapJoin([mid[0]], [added]);
      assert mid == [mid[0]] + [added];
      Insert(x, [r], y, mid, added);
    }
  }

  lemma FreshBlock(bs: Blocks, size: nat, name: Name, inode: word, kind: byte)
    requires Consistent(bs, size) && 264 <= size < 0x1_0000 && name != [] && |name| <= 255 && inode != 0 && name !in AsMap(All(bs))
    ensures var n := bs + [PutRec(Zeros(size), 0, Header(inode, size, |name|, kind), name)];
            Consistent(n, size) && AsMap(All(n)) == AsMap(All(bs))[name := Entry(inode, kind)]
  {
    hide All, AsMap, Distinct, InodeAt, SizeAt, NameAt, PutRec;
    var b := PutRec(Zeros(size), 0, Header(inode, size, |name|, kind), name);
    PutRecReads(Zeros(size), 0, Header(inode, size, |name|, kind), name);
    WholeBlock(b);
    AllJoin(bs, [b]);
    AllOne(b);
    MapJoin(All(bs), Records(b, 0));
    MapOne(RecAt(b, 0));
  }

  lemma WholeBlock(b: seq<byte>)
    requires |b| >= 8 && SizeAt(b, 0) == |b| && 8 + b[6] <= |b|
    ensures Tiles(b, 0) && Roomy(b, 0) && Records(b, 0) == [RecAt(b, 0)]
  {
    hide SizeAt, RecAt;
    assert Records(b, |b|) == [] && Tiles(b, |b|) && Roomy(b, |b|);
  }
}
