/**
 * Inodes and the directory entries that name them.  A directory holds itself as `.`, its parent
 * as `..`, and further names; an inode is owed one link for every entry of a linked directory.
 */
module LinkCounts {
  import opened DirRecords
  import opened Directory

  /** A count is stored in 16 bits. */
  type u16 = x: int | 0 <= x < 0x10000

  const MAX_LINKS: u16 := 0xFFFF

  /** Stored hard link count and alias references of every inode; a directory also has its entries, and is linked until it is removed. */
  datatype Node =
    | File(links: u16, refs: nat)
    | Dir(links: u16, refs: nat, up: nat, names: map<Name, nat>, linked: bool)

  type Nodes = map<nat, Node>

  /** A directory that has not been removed. */
  predicate Linked(ns: Nodes, d: nat) {
    d in ns && ns[d].Dir? && ns[d].linked
  }

  predicate Named(ns: Nodes, d: nat, n: Name, i: nat) {
    Linked(ns, d) && n in ns[d].names && ns[d].names[n] == i
  }

  predicate Under(ns: Nodes, d: nat, i: nat) {
    Linked(ns, d) && ns[d].up == i
  }

  // ----- how many entries name an inode

  ghost function Namers(ns: Nodes, i: nat): set<(nat, Name)> {
    set d, n | d in ns && ns[d].Dir? && n in ns[d].names && Named(ns, d, n, i) :: (d, n)
  }

  ghost function Kids(ns: Nodes, i: nat): set<nat> {
    set d | d in ns && Under(ns, d, i)
  }

  /** Entries that name `i`: ordinary names, `..` of subdirectories, and its own `.`. */
  ghost function Owed(ns: Nodes, i: nat): nat {
    |Namers(ns, i)| + |Kids(ns, i)| + if Linked(ns, i) then 1 else 0
  }

  lemma NamersAre(ns: Nodes, i: nat, x: (nat, Name))
    ensures x in Namers(ns, i) <==> Named(ns, x.0, x.1, i)
  {
    assert x == (x.0, x.1);
  }

  lemma SameNamers(ns: Nodes, ns': Nodes, i: nat)
    requires forall d, n :: Named(ns', d, n, i) <==> Named(ns, d, n, i)
    ensures Namers(ns', i) == Namers(ns, i)
  {
    hide Namers, Named;
    forall x: (nat, Name)
      ensures x in Namers(ns', i) <==> x in Namers(ns, i)
    {
      NamersAre(ns, i, x);
      NamersAre(ns', i, x);
    }
  }

  lemma MoreNamers(ns: Nodes, ns': Nodes, i: nat, d: nat, n: Name)
    requires !Named(ns, d, n, i)
    requires forall e, m :: Named(ns', e, m, i) <==> Named(ns, e, m, i) || (e == d && m == n)
    ensures |Namers(ns', i)| == |Namers(ns, i)| + 1
  {
    hide Namers, Named;
    forall x: (nat, Name)
      ensures x in Namers(ns', i) <==> x in Namers(ns, i) + {(d, n)}
    {
      NamersAre(ns, i, x);
      NamersAre(ns', i, x);
    }
    NamersAre(ns, i, (d, n));
    assert Namers(ns', i) == Namers(ns, i) + {(d, n)};
  }

  lemma SameKids(ns: Nodes, ns': Nodes, i: nat)
    requires forall d :: Under(ns', d, i) <==> Under(ns, d, i)
    ensures Kids(ns', i) == Kids(ns, i)
  {
  }

  lemma MoreKids(ns: Nodes, ns': Nodes, i: nat, c: nat)
    requires !Under(ns, c, i) && forall d :: Under(ns', d, i) <==> Under(ns, d, i) || d == c
    ensures |Kids(ns', i)| == |Kids(ns, i)| + 1
  {
    assert Kids(ns', i) == Kids(ns, i) + {c};
  }

  // ----- elementary changes

  /** Counts and references are no entries. */
  lemma OwedTouch(ns: Nodes, i: nat, links: u16, refs: nat, x: nat)
    requires i in ns
    ensures Owed(ns[i := ns[i].(links := links, refs := refs)], x) == Owed(ns, x)
  {
    var n: Nodes := ns[i := ns[i].(links := links, refs := refs)];
    SameNamers(ns, n, x);
    SameKids(ns, n, x);
    hide Namers, Kids;
  }

  function WithName(ns: Nodes, d: nat, n: Name, i: nat): Nodes
    requires d in ns && ns[d].Dir?
  {
    ns[d := ns[d].(names := ns[d].names[n := i])]
  }

  function WithoutName(ns: Nodes, d: nat, n: Name): Nodes
    requires d in ns && ns[d].Dir?
  {
    ns[d := ns[d].(names := ns[d].names - {n})]
  }

  lemma OwedName(ns: Nodes, d: nat, n: Name, i: nat, x: nat)
    requires Linked(ns, d) && n !in ns[d].names
    ensures Owed(WithName(ns, d, n, i), x) == Owed(ns, x) + if x == i then 1 else 0
  {
    var m := WithName(ns, d, n, i);
    if x == i {
      MoreNamers(ns, m, x, d, n);
    } else {
      SameNamers(ns, m, x);
    }
    SameKids(ns, m, x);
    hide Namers, Kids;
  }

  lemma OwedNoName(ns: Nodes, d: nat, n: Name, x: nat)
    requires Linked(ns, d) && n in ns[d].names
    ensures Owed(ns, x) == Owed(WithoutName(ns, d, n), x) + if x == ns[d].names[n] then 1 else 0
  {
    hide Owed;
    var m := WithoutName(ns, d, n);
    OwedName(m, d, n, ns[d].names[n], x);
    assert m[d].names[n := ns[d].names[n]] == ns[d].names;
    assert WithName(m, d, n, ns[d].names[n]) == ns;
  }

  lemma OwedUp(ns: Nodes, c: nat, p: nat, x: nat)
    requires Linked(ns, c)
    ensures Owed(ns[c := ns[c].(up := p)], x) + (if x == ns[c].up then 1 else 0) == Owed(ns, x) + (if x == p then 1 else 0)
  {
    var m: Nodes := ns[c := ns[c].(up := p)];
    SameNamers(ns, m, x);
    if p == ns[c].up {
      assert m == ns;
    } else if x == p {
      MoreKids(ns, m, x, c);
    } else if x == ns[c].up {
      MoreKids(m, ns, x, c);
    } else {
      SameKids(ns, m, x);
    }
    hide Namers, Kids;
  }

  /** A new inode that nothing names yet. */
  lemma OwedNew(ns: Nodes, ino: nat, node: Node, x: nat)
    requires ino !in ns && (node.Dir? ==> node.names == map[] && node.linked)
    ensures Owed(ns[ino := node], x) == Owed(ns, x) + if node.Dir? then (if x == ino then 1 else 0) + (if x == node.up then 1 else 0) else 0
  {
    var m: Nodes := ns[ino := node];
    SameNamers(ns, m, x);
    if node.Dir? && x == node.up {
      MoreKids(ns, m, x, ino);
    } else {
      SameKids(ns, m, x);
    }
    hide Namers, Kids;
  }

  /** An empty directory is removed: its own dots count no longer. */
  lemma OwedRemoved(ns: Nodes, c: nat, x: nat)
    requires Linked(ns, c) && ns[c].names == map[]
    ensures Owed(ns, x) == Owed(ns[c := ns[c].(links := 0, linked := false)], x) + (if x == c then 1 else 0) + (if x == ns[c].up then 1 else 0)
  {
    var m: Nodes := ns[c := ns[c].(links := 0, linked := false)];
    SameNamers(ns, m, x);
    if x == ns[c].up {
      MoreKids(m, ns, x, c);
    } else {
      SameKids(ns, m, x);
    }
    hide Namers, Kids;
  }

  /** An inode that is not linked leaves the table. */
  lemma OwedGone(ns: Nodes, i: nat, x: nat)
    requires i in ns && !Linked(ns, i)
    ensures Owed(ns - {i}, x) == Owed(ns, x)
  {
    SameNamers(ns, ns - {i}, x);
    SameKids(ns, ns - {i}, x);
    hide Namers, Kids;
  }

  // ----- the entries as they are stored

  /** No ordinary entry may have this name. */
  predicate Reserved(n: Name) {
    n == [] || n == DOT || n == DOTDOT
  }

  /** Every entry of a directory, dots included. */
  function Entries(ns: Nodes, d: nat): map<Name, nat>
    requires d in ns && ns[d].Dir?
  {
    ns[d].names[DOT := d][DOTDOT := ns[d].up]
  }

  /** Every entry of every linked directory that stands for `i`. */
  ghost function AllNamers(ns: Nodes, i: nat): set<(nat, Name)> {
    set d, n | d in ns && ns[d].Dir? && ns[d].linked && n in Entries(ns, d) && Entries(ns, d)[n] == i :: (d, n)
  }

  /** A linked directory stands for itself. */
  lemma OwnDot(ns: Nodes, d: nat)
    requires Linked(ns, d)
    ensures |AllNamers(ns, d)| > 0
  {
    assert (d, DOT) in AllNamers(ns, d);
  }

  ghost function UpNamers(ns: Nodes, i: nat): set<(nat, Name)> {
    set d | d in Kids(ns, i) :: (d, DOTDOT)
  }

  ghost function SelfNamer(ns: Nodes, i: nat): set<(nat, Name)> {
    if Linked(ns, i) then {(i, DOT)} else {}
  }

  lemma ImageSize(kids: set<nat>, pairs: set<(nat, Name)>)
    requires pairs == set d | d in kids :: (d, DOTDOT)
    ensures |pairs| == |kids|
    decreases |kids|
  {
    if kids != {} {
      var k :| k in kids;
      var rest := set d | d in kids - {k} :: (d, DOTDOT);
      ImageSize(kids - {k}, rest);
      assert pairs == rest + {(k, DOTDOT)};
    } else {
      assert pairs == {};
    }
  }

  lemma AllNamersAre(ns: Nodes, i: nat, d: nat, n: Name)
    requires forall e :: Linked(ns, e) ==> Undotted(ns[e].names)
    ensures (d, n) in AllNamers(ns, i) <==> (d, n) in Namers(ns, i) + UpNamers(ns, i) + SelfNamer(ns, i)
  {
    NamersAre(ns, i, (d, n));
  }

  ghost predicate Undotted(m: map<Name, nat>) {
    forall n :: n in m ==> !Reserved(n)
  }

  /** What an inode is owed is the number of entries, dots included, that stand for it. */
  lemma OwedIsEntries(ns: Nodes, i: nat)
    requires forall e :: Linked(ns, e) ==> Undotted(ns[e].names)
    ensures Owed(ns, i) == |AllNamers(ns, i)|
  {
    hide AllNamers, Namers;
    forall x: (nat, Name)
      ensures x in AllNamers(ns, i) <==> x in Namers(ns, i) + UpNamers(ns, i) + SelfNamer(ns, i)
    {
      AllNamersAre(ns, i, x.0, x.1);
    }
    assert AllNamers(ns, i) == Namers(ns, i) + UpNamers(ns, i) + SelfNamer(ns, i);
    forall x | x in Namers(ns, i)
      ensures !Reserved(x.1)
    {
      NamersAre(ns, i, x);
    }
    ImageSize(Kids(ns, i), UpNamers(ns, i));
    Disjoint3(Namers(ns, i), UpNamers(ns, i), SelfNamer(ns, i));
  }

  lemma Disjoint3<T>(a: set<T>, b: set<T>, c: set<T>)
    requires a !! b && a !! c && b !! c
    ensures |a + b + c| == |a| + |b| + |c|
  {
  }
}
