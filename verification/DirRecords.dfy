/**
 * Directory blocks at byte level: records chained by their size field.  A record holds a 32-bit
 * inode number, a 16-bit record size, a one-byte name length, a type and the name.
 */
module DirRecords {
  import opened Bytes

  type Name = seq<byte>

  datatype Header = Header(inode: word, size: nat, nameLen: byte, kind: byte)

  datatype Rec = Rec(inode: nat, size: nat, kind: nat, name: Name)

  /** Bytes a record with a name of this length needs. */
  function EntrySize(nameLen: nat): (n: nat)
    ensures 8 + nameLen <= n < 12 + nameLen && n % 4 == 0
  {
    (8 + nameLen + 3) / 4 * 4
  }

  // ----- reading

  function InodeAt(b: seq<byte>, pos: nat): word
    requires pos + 8 <= |b|
  {
    var b0: int, b1: int, b2: int, b3: int := b[pos], b[pos + 1], b[pos + 2], b[pos + 3];
    b0 + 0x100 * b1 + 0x1_0000 * b2 + 0x100_0000 * b3
  }

  function SizeAt(b: seq<byte>, pos: nat): (n: nat)
    requires pos + 8 <= |b|
    ensures n < 0x1_0000
  {
    var b0: int, b1: int := b[pos + 4], b[pos + 5];
    b0 + 0x100 * b1
  }

  function HeaderAt(b: seq<byte>, pos: nat): Header
    requires pos + 8 <= |b|
  {
    Header(InodeAt(b, pos), SizeAt(b, pos), b[pos + 6], b[pos + 7])
  }

  function NameAt(b: seq<byte>, pos: nat): Name
    requires pos + 8 <= |b|
  {
    if pos + 8 + b[pos + 6] <= |b| then b[pos + 8..pos + 8 + b[pos + 6]] else []
  }

  /** A header with room for itself that stays inside the block. */
  predicate Sound(b: seq<byte>, pos: nat) {
    pos + 8 <= |b| && 8 <= SizeAt(b, pos) <= |b| - pos
  }

  function RecAt(b: seq<byte>, pos: nat): Rec
    requires pos + 8 <= |b|
  {
    Rec(InodeAt(b, pos), SizeAt(b, pos), b[pos + 7], NameAt(b, pos))
  }

  /** Where the fields of a record lie. */
  lemma RecordLayout(b: seq<byte>, pos: nat)
    requires pos + 8 <= |b| && pos + 8 + b[pos + 6] as int <= |b|
    ensures var r := RecAt(b, pos);
            && r.inode == b[pos] as int + 0x100 * b[pos + 1] as int + 0x1_0000 * b[pos + 2] as int + 0x100_0000 * b[pos + 3] as int
            && r.size == b[pos + 4] as int + 0x100 * b[pos + 5] as int && r.kind == b[pos + 7]
            && |r.name| == b[pos + 6] as int && forall k :: 0 <= k < |r.name| ==> r.name[k] == b[pos + 8 + k]
    ensures Sound(b, pos) <==> 8 <= b[pos + 4] as int + 0x100 * b[pos + 5] as int <= |b| - pos
  {
  }

  /** The records of a block from `pos` on, up to the first unsound one. */
  function Records(b: seq<byte>, pos: nat): seq<Rec>
    decreases |b| - pos
  {
    if !Sound(b, pos) then [] else [RecAt(b, pos)] + Records(b, pos + SizeAt(b, pos))
  }

  /** The records fill the block exactly. */
  predicate Tiles(b: seq<byte>, pos: nat)
    decreases |b| - pos
  {
    pos == |b| || (Sound(b, pos) && Tiles(b, pos + SizeAt(b, pos)))
  }

  /** Following the chain from `pos` leads to `p`. */
  predicate Leads(b: seq<byte>, pos: nat, p: nat)
    decreases |b| - pos
  {
    pos == p || (Sound(b, pos) && Leads(b, pos + SizeAt(b, pos), p))
  }

  /** The records between two places of the chain. */
  function Between(b: seq<byte>, pos: nat, p: nat): seq<Rec>
    requires Leads(b, pos, p)
    decreases |b| - pos
  {
    if pos == p then [] else [RecAt(b, pos)] + Between(b, pos + SizeAt(b, pos), p)
  }

  lemma {:induction false} LeadsOrder(b: seq<byte>, pos: nat, p: nat)
    requires Leads(b, pos, p)
    ensures pos <= p && (pos <= |b| ==> p <= |b|)
    decreases |b| - pos
  {
    if pos != p {
      LeadsOrder(b, pos + SizeAt(b, pos), p);
    }
  }

  lemma Cons<T>(x: T, a: seq<T>, b: seq<T>)
    ensures [x] + (a + b) == [x] + a + b
  {
  }

  lemma {:induction false} SplitAt(b: seq<byte>, pos: nat, p: nat)
    requires Leads(b, pos, p)
    ensures Records(b, pos) == Between(b, pos, p) + Records(b, p) && (Tiles(b, pos) <==> Tiles(b, p))
    decreases |b| - pos
  {
    hide SizeAt, RecAt;
    LeadsOrder(b, pos, p);
    if pos != p {
      var q := pos + SizeAt(b, pos);
      SplitAt(b, q, p);
      LeadsOrder(b, q, p);
      Cons(RecAt(b, pos), Between(b, q, p), Records(b, p));
    }
  }

  lemma {:induction false} OneMore(b: seq<byte>, pos: nat, p: nat)
    requires Leads(b, pos, p) && Sound(b, p)
    ensures Leads(b, pos, p + SizeAt(b, p))
    ensures Between(b, pos, p + SizeAt(b, p)) == Between(b, pos, p) + [RecAt(b, p)]
    decreases |b| - pos
  {
    hide SizeAt, RecAt;
    var e := p + SizeAt(b, p);
    if pos == p {
      assert Leads(b, e, e) && Between(b, e, e) == [];
    } else {
      var q := pos + SizeAt(b, pos);
      OneMore(b, q, p);
      LeadsOrder(b, q, p);
      Cons(RecAt(b, pos), Between(b, q, p), [RecAt(b, p)]);
    }
  }

  // ----- framing

  lemma SameRec(b: seq<byte>, b': seq<byte>, pos: nat)
    requires |b'| == |b| && Sound(b, pos)
    requires forall i :: pos <= i < pos + SizeAt(b, pos) ==> b'[i] == b[i]
    ensures HeaderAt(b', pos) == HeaderAt(b, pos) && Sound(b', pos)
    ensures 8 + b[pos + 6] <= SizeAt(b, pos) ==> RecAt(b', pos) == RecAt(b, pos)
  {
    if 8 + b[pos + 6] <= SizeAt(b, pos) {
      assert NameAt(b', pos) == NameAt(b, pos);
    }
  }

  /** Every record of the chain has room for its name. */
  predicate Roomy(b: seq<byte>, pos: nat)
    decreases |b| - pos
  {
    Sound(b, pos) ==> 8 + b[pos + 6] <= SizeAt(b, pos) && Roomy(b, pos + SizeAt(b, pos))
  }

  lemma {:induction false} SameTail(b: seq<byte>, b': seq<byte>, pos: nat)
    requires |b'| == |b| && Tiles(b, pos) && Roomy(b, pos) && pos <= |b|
    requires forall i :: pos <= i < |b| ==> b'[i] == b[i]
    ensures Tiles(b', pos) && Roomy(b', pos) && Records(b', pos) == Records(b, pos)
    decreases |b| - pos
  {
    if pos < |b| {
      SameRec(b, b', pos);
      SameTail(b, b', pos + SizeAt(b, pos));
    }
  }

  lemma {:induction false} SameHead(b: seq<byte>, b': seq<byte>, pos: nat, p: nat)
    requires |b'| == |b| && Leads(b, pos, p) && Roomy(b, pos) && p <= |b|
    requires forall i :: pos <= i < p ==> b'[i] == b[i]
    ensures Leads(b', pos, p) && Between(b', pos, p) == Between(b, pos, p)
    ensures Roomy(b, p) && (Roomy(b', p) ==> Roomy(b', pos))
    decreases |b| - pos
  {
    LeadsOrder(b, pos, p);
    if pos != p {
      var q := pos + SizeAt(b, pos);
      LeadsOrder(b, q, p);
      SameRec(b, b', pos);
      SameHead(b, b', q, p);
    }
  }

  /** Rewriting the bytes of some records leaves the records before and after them alone. */
  lemma Edit(b: seq<byte>, b': seq<byte>, p: nat, e: nat)
    requires Tiles(b, 0) && Roomy(b, 0) && Leads(b, 0, p) && Leads(b, p, e) && |b'| == |b| && p <= e <= |b|
    requires forall i :: 0 <= i < |b| && !(p <= i < e) ==> b'[i] == b[i]
    requires Leads(b', p, e) && (Roomy(b', e) ==> Roomy(b', p))
    ensures Tiles(b', 0) && Roomy(b', 0)
    ensures Records(b, 0) == Between(b, 0, p) + Between(b, p, e) + Records(b, e)
    ensures Records(b', 0) == Between(b, 0, p) + Between(b', p, e) + Records(b, e)
  {
    hide Sound, RecAt, Tiles, Roomy, Leads, Between, Records;
    SplitAt(b, 0, p);
    SplitAt(b, p, e);
    SameHead(b, b', 0, p);
    SameHead(b, b, p, e);
    SameTail(b, b', e);
    SplitAt(b', 0, p);
    SplitAt(b', p, e);
    Regroup(Between(b, 0, p), Between(b, p, e), Records(b, e));
    Regroup(Between(b, 0, p), Between(b', p, e), Records(b, e));
  }

  lemma Regroup<T>(a: seq<T>, b: seq<T>, c: seq<T>)
    ensures a + (b + c) == a + b + c
  {
  }

  // ----- writing

  function Encode(h: Header): (b: seq<byte>)
    requires h.size < 0x1_0000
    ensures |b| == 8
  {
    [WordByte(h.inode, 0), WordByte(h.inode, 1), WordByte(h.inode, 2), WordByte(h.inode, 3),
     h.size % 0x100, h.size / 0x100, h.nameLen, h.kind]
  }

  lemma Decodes(b: seq<byte>, pos: nat, h: Header)
    requires pos + 8 <= |b| && h.size < 0x1_0000 && b[pos..pos + 8] == Encode(h)
    ensures HeaderAt(b, pos) == h
  {
    WordOfBytes(h.inode);
    assert forall k :: 0 <= k < 8 ==> b[pos + k] == Encode(h)[k];
  }

  /** One record written whole. */
  function PutRec(b: seq<byte>, pos: nat, h: Header, name: Name): (n: seq<byte>)
    requires h.size < 0x1_0000 && pos + 8 + |name| <= |b|
    ensures |n| == |b|
    ensures forall i :: 0 <= i < |b| && !(pos <= i < pos + 8 + |name|) ==> n[i] == b[i]
  {
    Splice(b, pos, Encode(h) + name)
  }

  lemma PutRecReads(b: seq<byte>, pos: nat, h: Header, name: Name)
    requires h.size < 0x1_0000 && pos + 8 + |name| <= |b| && h.nameLen == |name|
    ensures HeaderAt(PutRec(b, pos, h, name), pos) == h && NameAt(PutRec(b, pos, h, name), pos) == name
    ensures RecAt(PutRec(b, pos, h, name), pos) == Rec(h.inode, h.size, h.kind, name)
  {
    var n := PutRec(b, pos, h, name);
    assert n[pos..pos + 8] == Encode(h);
    Decodes(n, pos, h);
    assert n[pos + 8..pos + 8 + |name|] == name;
  }

  /** Only the header written. */
  function PutHeader(b: seq<byte>, pos: nat, h: Header): (n: seq<byte>)
    requires h.size < 0x1_0000 && pos + 8 <= |b|
    ensures |n| == |b|
    ensures forall i :: 0 <= i < |b| && !(pos <= i < pos + 8) ==> n[i] == b[i]
  {
    Splice(b, pos, Encode(h))
  }

  lemma PutHeaderReads(b: seq<byte>, pos: nat, h: Header)
    requires h.size < 0x1_0000 && pos + 8 <= |b| && h.nameLen == b[pos + 6]
    ensures HeaderAt(PutHeader(b, pos, h), pos) == h && NameAt(PutHeader(b, pos, h), pos) == NameAt(b, pos)
    ensures RecAt(PutHeader(b, pos, h), pos) == Rec(h.inode, h.size, h.kind, NameAt(b, pos))
  {
    var n := PutHeader(b, pos, h);
    assert n[pos..pos + 8] == Encode(h);
    Decodes(n, pos, h);
    assert NameAt(n, pos) == NameAt(b, pos);
  }

  // ----- the list as a map

  datatype Entry = Entry(inode: nat, kind: nat)

  /** The live records of a list, by name; the first of a name counts. */
  function AsMap(rs: seq<Rec>): map<Name, Entry> {
    if rs == [] then map[]
    else if rs[0].inode == 0 then AsMap(rs[1..])
    else AsMap(rs[1..])[rs[0].name := Entry(rs[0].inode, rs[0].kind)]
  }

  /** No name occurs twice. */
  predicate Distinct(rs: seq<Rec>) {
    rs == [] || (Distinct(rs[1..]) && (rs[0].inode != 0 ==> rs[0].name !in AsMap(rs[1..])))
  }

  /** A live record has a name and room for it. */
  predicate Fine(r: Rec) {
    r.inode != 0 ==> r.name != [] && |r.name| <= 255 && EntrySize(|r.name|) <= r.size
  }

  lemma {:induction false} MapJoin(a: seq<Rec>, b: seq<Rec>)
    ensures AsMap(a + b) == AsMap(b) + AsMap(a)
    ensures Distinct(a + b) <==> Distinct(a) && Distinct(b) && AsMap(a).Keys !! AsMap(b).Keys
  {
    if a == [] {
      assert a + b == b;
    } else {
      assert (a + b)[1..] == a[1..] + b;
      MapJoin(a[1..], b);
    }
  }

  lemma MapOne(r: Rec)
    ensures AsMap([r]) == if r.inode == 0 then map[] else map[r.name := Entry(r.inode, r.kind)]
    ensures Distinct([r])
  {
    assert [r][1..] == [];
  }

  /** A dead record in the middle comes to life under a new name. */
  lemma Insert(a: seq<Rec>, dead: seq<Rec>, b: seq<Rec>, live: seq<Rec>, r: Rec)
    requires Distinct(a + dead + b) && r.inode != 0 && r.name !in AsMap(a + dead + b) && Distinct(live)
    requires AsMap(live) == AsMap(dead)[r.name := Entry(r.inode, r.kind)]
    ensures Distinct(a + live + b) && AsMap(a + live + b) == AsMap(a + dead + b)[r.name := Entry(r.inode, r.kind)]
  {
    hide AsMap, Distinct;
    MapJoin(a + dead, b);
    MapJoin(a, dead);
    MapJoin(a + live, b);
    MapJoin(a, live);
  }

  /** A live record in the middle dies or names another inode. */
  lemma Alter(a: seq<Rec>, was: Rec, b: seq<Rec>, r: Rec)
    requires Distinct(a + [was] + b) && was.inode != 0 && r.name == was.name
    ensures Distinct(a + [r] + b) && was.name in AsMap(a + [was] + b)
    ensures AsMap(a + [was] + b)[was.name] == Entry(was.inode, was.kind)
    ensures AsMap(a + [r] + b) == if r.inode == 0 then AsMap(a + [was] + b) - {was.name}
                                  else AsMap(a + [was] + b)[was.name := Entry(r.inode, r.kind)]
  {
    hide AsMap, Distinct;
    MapJoin(a + [was], b);
    MapJoin(a, [was]);
    MapJoin(a + [r], b);
    MapJoin(a, [r]);
    MapOne(was);
    MapOne(r);
  }
}
