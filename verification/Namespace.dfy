/**
 * Creating, linking, removing and renaming names, and giving inodes back: what each does to the tree
 * of names, and to the hard link counts, each of which is the number of entries that stand for the
 * inode as long as that number fits.
 */
module Namespace {
  import opened DirRecords
  import opened LinkCounts

  predicate IsDir(ns: Nodes, i: nat) {
    i in ns && ns[i].Dir?
  }

  function Up(ns: Nodes, d: nat): nat {
    if IsDir(ns, d) then ns[d].up else 0
  }

  // ----- the shape of the tree

  /** Names are allowed and stand for inodes that exist. */
  ghost predicate Listed(ns: Nodes) {
    forall d, n, i :: Named(ns, d, n, i) ==> !Reserved(n) && i in ns
  }

  /** A directory is named only by its parent, which it names as `..`; the root by nobody. */
  ghost predicate Hung(ns: Nodes, root: nat) {
    forall d, n, c :: Named(ns, d, n, c) && IsDir(ns, c) ==> Linked(ns, c) && Up(ns, c) == d && c != root && c != d
  }

  ghost predicate Held(ns: Nodes, root: nat) {
    forall c {:trigger Up(ns, c)} :: Linked(ns, c) && c != root ==> exists n :: Named(ns, Up(ns, c), n, c)
  }

  ghost predicate Once(ns: Nodes) {
    forall d, n, m, c :: Named(ns, d, n, c) && Named(ns, d, m, c) && IsDir(ns, c) ==> n == m
  }

  ghost predicate Tree(ns: Nodes, root: nat) {
    && Listed(ns) && Hung(ns, root) && Held(ns, root) && Once(ns)
    && Linked(ns, root) && Up(ns, root) == root
  }

  lemma LinkedIsDir(ns: Nodes, c: nat)
    ensures Linked(ns, c) ==> IsDir(ns, c)
    ensures forall n, i :: Named(ns, c, n, i) ==> Linked(ns, c)
  {
  }

  lemma NamedOne(ns: Nodes, d: nat, n: Name, i: nat, j: nat)
    ensures Named(ns, d, n, i) && Named(ns, d, n, j) ==> i == j
  {
  }

  // ----- what operations do to names

  /** The same directories with the same entries. */
  ghost predicate SameNames(ns: Nodes, ns': Nodes) {
    && ns'.Keys == ns.Keys && (forall d :: Linked(ns', d) == Linked(ns, d) && IsDir(ns', d) == IsDir(ns, d) && Up(ns', d) == Up(ns, d))
    && forall d, m, x :: Named(ns', d, m, x) == Named(ns, d, m, x)
  }

  /** Name `n` of `p` now stands for `i`, and nothing else changed. */
  ghost predicate Added(ns: Nodes, ns': Nodes, p: nat, n: Name, i: nat) {
    && (forall d, m, x :: Named(ns', d, m, x) <==> Named(ns, d, m, x) || (d == p && m == n && x == i))
    && (forall d :: d in ns ==> d in ns' && IsDir(ns', d) == IsDir(ns, d) && Linked(ns', d) == Linked(ns, d) && Up(ns', d) == Up(ns, d))
  }

  /** Name `n` of `p` is gone, a directory `c` is no longer linked, and nothing else changed. */
  ghost predicate Dropped(ns: Nodes, ns': Nodes, p: nat, n: Name, c: nat) {
    && ns'.Keys == ns.Keys && (forall d :: IsDir(ns', d) == IsDir(ns, d)) && (forall d :: Up(ns', d) == Up(ns, d))
    && (forall d, m, x :: Named(ns', d, m, x) == (Named(ns, d, m, x) && !(d == p && m == n)))
    && (forall d :: Linked(ns', d) <==> Linked(ns, d) && !(d == c))
  }

  /** Name `n` of `p` is gone, name `l` of `q` stands for `c`, and a directory names its new parent. */
  ghost predicate Moved(ns: Nodes, ns': Nodes, p: nat, n: Name, q: nat, l: Name, c: nat) {
    && ns'.Keys == ns.Keys && (forall d :: IsDir(ns', d) == IsDir(ns, d))
    && (forall d, m, x :: Named(ns', d, m, x) <==>
          (d == q && m == l && x == c) || (Named(ns, d, m, x) && !(d == p && m == n) && !(d == q && m == l)))
    && (forall d :: Linked(ns', d) <==> Linked(ns, d) && !Named(ns, q, l, d))
    && (IsDir(ns, c) ==> Up(ns', c) == q) && (forall d :: d != c ==> Up(ns', d) == Up(ns, d))
  }

  lemma SameTree(ns: Nodes, ns': Nodes, root: nat)
    requires Tree(ns, root) && SameNames(ns, ns')
    ensures Tree(ns', root)
  {
    hide Linked, Named, IsDir, Up;
    forall c | Linked(ns', c) && c != root
      ensures exists n :: Named(ns', Up(ns', c), n, c)
    {
      var n :| Named(ns, Up(ns, c), n, c);
      assert Named(ns', Up(ns', c), n, c);
    }
  }

  /** A new name for a file, or for a directory that has just appeared. */
  lemma AddedTree(ns: Nodes, ns': Nodes, root: nat, p: nat, n: Name, i: nat)
    requires Tree(ns, root) && Added(ns, ns', p, n, i) && Linked(ns, p) && !Reserved(n) && ns'.Keys == ns.Keys + {i}
    requires i in ns ==> !IsDir(ns, i)
    requires i !in ns && IsDir(ns', i) ==> Linked(ns', i) && Up(ns', i) == p
    ensures Tree(ns', root)
  {
    NewFacts(ns, ns', root, p, i);
    hide Linked, Named, IsDir, Up;
    forall x | Linked(ns', x) && x != root
      ensures exists m :: Named(ns', Up(ns', x), m, x)
    {
      if x in ns {
        var m :| Named(ns, Up(ns, x), m, x);
        assert Named(ns', Up(ns', x), m, x);
      } else {
        assert Named(ns', p, n, i);
      }
    }
    forall d, m, x | Named(ns', d, m, x) && IsDir(ns', x)
      ensures Linked(ns', x) && Up(ns', x) == d && x != root && x != d
    {
    }
  }

  lemma NewFacts(ns: Nodes, ns': Nodes, root: nat, p: nat, i: nat)
    requires Tree(ns, root) && Linked(ns, p)
    ensures root in ns && p in ns && forall x :: (Linked(ns', x) ==> IsDir(ns', x)) && (IsDir(ns', x) ==> x in ns')
  {
  }

  lemma RootUnnamed(ns: Nodes, root: nat, p: nat, n: Name, c: nat)
    requires Tree(ns, root) && Named(ns, p, n, c)
    ensures c != root
  {
  }

  lemma DroppedTree(ns: Nodes, ns': Nodes, root: nat, p: nat, n: Name, c: nat)
    requires Tree(ns, root) && Dropped(ns, ns', p, n, c) && Named(ns, p, n, c)
    ensures Tree(ns', root)
  {
    RootUnnamed(ns, root, p, n, c);
    hide Linked, Named, IsDir, Up;
    forall d, m, x | Named(ns', d, m, x) && IsDir(ns', x)
      ensures Linked(ns', x) && Up(ns', x) == d && x != root && x != d
    {
      assert Named(ns, d, m, x) && !(d == p && m == n);
    }
    forall x | Linked(ns', x) && x != root
      ensures exists m :: Named(ns', Up(ns', x), m, x)
    {
      var m :| Named(ns, Up(ns, x), m, x);
      NamedOne(ns, p, n, c, x);
      assert Named(ns', Up(ns', x), m, x);
    }
  }

  lemma MovedTree(ns: Nodes, ns': Nodes, root: nat, p: nat, n: Name, q: nat, l: Name, c: nat)
    requires Tree(ns, root) && Moved(ns, ns', p, n, q, l, c) && Named(ns, p, n, c) && Linked(ns, q) && !Named(ns, q, l, c) && !Reserved(l) && q != c
    ensures Tree(ns', root)
  {
    RootUnnamed(ns, root, p, n, c);
    hide Linked, Named, IsDir, Up;
    forall d, m, x | Named(ns', d, m, x) && IsDir(ns', x)
      ensures Linked(ns', x) && Up(ns', x) == d && x != root && x != d
    {
      MovedNames(ns, ns', root, p, n, q, l, c, d, m, x);
    }
    forall d, m, k, x | Named(ns', d, m, x) && Named(ns', d, k, x) && IsDir(ns', x)
      ensures m == k
    {
      MovedNames(ns, ns', root, p, n, q, l, c, d, m, x);
      MovedNames(ns, ns', root, p, n, q, l, c, d, k, x);
    }
    forall x | Linked(ns', x) && x != root
      ensures exists m :: Named(ns', Up(ns', x), m, x)
    {
      LinkedIsDir(ns, x);
      if x == c {
        assert Named(ns', q, l, c);
      } else {
        var m :| Named(ns, Up(ns, x), m, x);
        NamedOne(ns, p, n, c, x);
        assert Named(ns', Up(ns', x), m, x);
      }
    }
  }

  /** After a move a directory is named as before, or it is the one that moved. */
  lemma MovedNames(ns: Nodes, ns': Nodes, root: nat, p: nat, n: Name, q: nat, l: Name, c: nat, d: nat, m: Name, x: nat)
    requires Tree(ns, root) && Moved(ns, ns', p, n, q, l, c) && Named(ns, p, n, c) && Linked(ns, q) && !Named(ns, q, l, c) && q != c
    requires Named(ns', d, m, x) && IsDir(ns', x)
    ensures Linked(ns', x) && Up(ns', x) == d && x != d && x != root
    ensures if x == c then d == q && m == l else Named(ns, d, m, x) && !(d == q && m == l)
  {
    hide Linked, Named, IsDir, Up, Held;
    if x == c {
      assert Named(ns, d, m, c) ==> d == p && m == n;
    } else {
      assert Named(ns, d, m, x) && !(d == q && m == l);
    }
  }

  // ----- the counts

  /** Every count is what the entries say, but for those of the inodes in `bad`. */
  ghost predicate Counted(ns: Nodes, bad: set<nat>) {
    forall i {:trigger Owed(ns, i)} :: i in ns && i !in bad ==> ns[i].links == Owed(ns, i)
  }

  /** An inode that nothing names is kept only by its aliases. */
  ghost predicate Kept(ns: Nodes, bad: set<nat>) {
    forall i :: i in ns && i !in bad && ns[i].links == 0 ==> ns[i].refs > 0
  }

  ghost predicate Exact(ns: Nodes, bad: set<nat>) {
    Counted(ns, bad) && Kept(ns, bad)
  }

  // ----- elementary changes

  lemma AfterName(ns: Nodes, d: nat, n: Name, i: nat)
    requires Linked(ns, d)
    ensures var m := WithName(ns, d, n, i);
            && m.Keys == ns.Keys && (forall x :: Linked(m, x) == Linked(ns, x) && IsDir(m, x) == IsDir(ns, x) && Up(m, x) == Up(ns, x))
            && forall e, l, x :: Named(m, e, l, x) == if e == d && l == n then x == i else Named(ns, e, l, x)
  {
  }

  lemma AfterNoName(ns: Nodes, d: nat, n: Name)
    requires Linked(ns, d)
    ensures var m := WithoutName(ns, d, n);
            && m.Keys == ns.Keys && (forall x :: Linked(m, x) == Linked(ns, x) && IsDir(m, x) == IsDir(ns, x) && Up(m, x) == Up(ns, x))
            && forall e, l, x :: Named(m, e, l, x) == (Named(ns, e, l, x) && !(e == d && l == n))
  {
  }

  function Touch(ns: Nodes, i: nat, links: u16, refs: nat): Nodes
    requires i in ns
  {
    ns[i := ns[i].(links := links, refs := refs)]
  }

  lemma AfterTouch(ns: Nodes, i: nat, links: u16, refs: nat)
    requires i in ns
    ensures SameNames(ns, Touch(ns, i, links, refs))
  {
  }

  lemma AfterNew(ns: Nodes, ino: nat, node: Node)
    requires ino !in ns && (node.Dir? ==> node.names == map[] && node.linked)
    ensures var m: Nodes := ns[ino := node];
            && (forall x :: Linked(m, x) == (Linked(ns, x) || (node.Dir? && x == ino)))
            && (forall x :: IsDir(m, x) == (IsDir(ns, x) || (node.Dir? && x == ino)))
            && (forall x :: x != ino ==> Up(m, x) == Up(ns, x)) && (node.Dir? ==> Up(m, ino) == node.up)
            && forall e, l, x :: Named(m, e, l, x) == Named(ns, e, l, x)
  {
  }

  /** A directory is removed: its count drops to nothing. */
  function Unlinked(ns: Nodes, c: nat): Nodes
    requires IsDir(ns, c)
  {
    ns[c := ns[c].(links := 0, linked := false)]
  }

  lemma AfterRemoved(ns: Nodes, c: nat)
    requires Linked(ns, c)
    ensures var m := Unlinked(ns, c);
            && m.Keys == ns.Keys && (forall x :: Linked(m, x) == (Linked(ns, x) && x != c)) && (forall x :: IsDir(m, x) == IsDir(ns, x) && Up(m, x) == Up(ns, x))
            && forall e, l, x :: Named(m, e, l, x) == (Named(ns, e, l, x) && e != c)
  {
  }

  function Rehung(ns: Nodes, c: nat, p: nat): Nodes
    requires IsDir(ns, c)
  {
    ns[c := ns[c].(up := p)]
  }

  lemma AfterUp(ns: Nodes, c: nat, p: nat)
    requires Linked(ns, c)
    ensures var m := Rehung(ns, c, p);
            && m.Keys == ns.Keys && (forall x :: Linked(m, x) == Linked(ns, x) && IsDir(m, x) == IsDir(ns, x))
            && (forall x :: x != c ==> Up(m, x) == Up(ns, x)) && Up(m, c) == p
            && forall e, l, x :: Named(m, e, l, x) == Named(ns, e, l, x)
  {
  }

  lemma AfterGone(ns: Nodes, i: nat)
    requires i in ns && !Linked(ns, i)
    ensures var m: Nodes := ns - {i};
            && (forall x :: Linked(m, x) == Linked(ns, x)) && (forall x :: IsDir(m, x) == (IsDir(ns, x) && x != i))
            && (forall x :: Linked(ns, x) ==> Up(m, x) == Up(ns, x))
            && forall e, l, x :: Named(m, e, l, x) == Named(ns, e, l, x)
  {
  }

  lemma NamedIs(ns: Nodes, d: nat, n: Name)
    requires Linked(ns, d)
    ensures n in ns[d].names ==> Named(ns, d, n, ns[d].names[n])
    ensures n !in ns[d].names ==> forall x :: !Named(ns, d, n, x)
  {
  }

  // ----- files

  lemma NotDir(ns: Nodes, i: nat)
    ensures i !in ns || ns[i].File? ==> !IsDir(ns, i) && !Linked(ns, i)
  {
  }

  /** Nothing is owed to an inode that does not exist. */
  lemma Unnamed(ns: Nodes, root: nat, i: nat)
    requires Tree(ns, root) && i !in ns
    ensures Owed(ns, i) == 0
  {
    forall x: (nat, Name)
      ensures x !in Namers(ns, i)
    {
      NamersAre(ns, i, x);
    }
    forall d
      ensures !Under(ns, d, i)
    {
      NoKid(ns, root, d, i);
    }
    assert Namers(ns, i) == {} && Kids(ns, i) == {};
  }

  lemma NoKid(ns: Nodes, root: nat, d: nat, i: nat)
    requires Tree(ns, root) && i !in ns
    ensures !Under(ns, d, i)
  {
    if Linked(ns, d) && d != root {
      var n :| Named(ns, Up(ns, d), n, d);
    }
  }

  /** A new file under a new name. */
  function FileCreated(ns: Nodes, p: nat, n: Name, ino: nat): Nodes
    requires IsDir(ns, p) && ino !in ns
  {
    WithName(ns[ino := File(1, 1)], p, n, ino)
  }

  lemma FileCreatedMeans(ns: Nodes, p: nat, n: Name, ino: nat)
    requires Linked(ns, p) && n !in ns[p].names && ino !in ns
    ensures IsDir(ns, p) && Added(ns, FileCreated(ns, p, n, ino), p, n, ino) && !IsDir(FileCreated(ns, p, n, ino), ino)
    ensures FileCreated(ns, p, n, ino).Keys == ns.Keys + {ino}
  {
    hide Named, Linked, IsDir, Up;
    LinkedIsDir(ns, p);
    NamedIs(ns, p, n);
    NotDir(ns, ino);
    AfterNew(ns, ino, File(1, 1));
    AfterName(ns[ino := File(1, 1)], p, n, ino);
  }

  lemma CreatesFile(ns: Nodes, bad: set<nat>, root: nat, p: nat, n: Name, ino: nat)
    requires Tree(ns, root) && Exact(ns, bad) && Linked(ns, p) && n !in ns[p].names && ino !in ns
    ensures Exact(FileCreated(ns, p, n, ino), bad)
  {
    hide Owed, Tree;
    var m: Nodes := ns[ino := File(1, 1)];
    var ns' := FileCreated(ns, p, n, ino);
    forall i | i in ns' && i !in bad
      ensures ns'[i].links == Owed(ns', i)
    {
      OwedNew(ns, ino, File(1, 1), i);
      OwedName(m, p, n, ino, i);
      Unnamed(ns, root, ino);
    }
  }

  /** One more name for a file. */
  function FileLinked(ns: Nodes, p: nat, n: Name, t: nat): Nodes
    requires IsDir(ns, p) && t in ns && p != t && ns[t].links < MAX_LINKS
  {
    WithName(Touch(ns, t, ns[t].links + 1, ns[t].refs + 1), p, n, t)
  }

  lemma FileLinkedMeans(ns: Nodes, p: nat, n: Name, t: nat)
    requires Linked(ns, p) && n !in ns[p].names && t in ns && ns[t].File? && ns[t].links < MAX_LINKS
    ensures p != t && IsDir(ns, p) && Added(ns, FileLinked(ns, p, n, t), p, n, t) && FileLinked(ns, p, n, t).Keys == ns.Keys
  {
    NotDir(ns, t);
    hide Named, Linked, IsDir, Up;
    LinkedIsDir(ns, p);
    NamedIs(ns, p, n);
    AfterTouch(ns, t, ns[t].links + 1, ns[t].refs + 1);
    AfterName(Touch(ns, t, ns[t].links + 1, ns[t].refs + 1), p, n, t);
  }

  lemma LinksFile(ns: Nodes, bad: set<nat>, p: nat, n: Name, t: nat)
    requires Exact(ns, bad) && Linked(ns, p) && n !in ns[p].names && t in ns && ns[t].File? && ns[t].links < MAX_LINKS
    ensures p != t && Exact(FileLinked(ns, p, n, t), bad)
  {
    hide Owed;
    var m := Touch(ns, t, ns[t].links + 1, ns[t].refs + 1);
    var ns' := FileLinked(ns, p, n, t);
    forall i | i in ns' && i !in bad
      ensures ns'[i].links == Owed(ns', i)
    {
      OwedTouch(ns, t, ns[t].links + 1, ns[t].refs + 1, i);
      OwedName(m, p, n, t, i);
    }
  }

  /** One name less for a file. */
  function FileDropped(ns: Nodes, p: nat, n: Name, t: nat): Nodes
    requires IsDir(ns, p) && t in ns && p != t
  {
    var m := WithoutName(ns, p, n);
    Touch(m, t, if m[t].links > 0 then m[t].links - 1 else 0, m[t].refs)
  }

  lemma FileDroppedMeans(ns: Nodes, q: nat, l: Name, t: nat)
    requires Named(ns, q, l, t) && t in ns && ns[t].File?
    ensures IsDir(ns, q) && t != q && Dropped(ns, FileDropped(ns, q, l, t), q, l, t)
  {
    NotDir(ns, t);
    hide Linked, IsDir, Up;
    LinkedIsDir(ns, q);
    var m1 := WithoutName(ns, q, l);
    AfterNoName(ns, q, l);
    AfterTouch(m1, t, if m1[t].links > 0 then m1[t].links - 1 else 0, m1[t].refs);
    hide Named;
  }

  lemma DropsFile(ns: Nodes, bad: set<nat>, p: nat, n: Name, t: nat)
    requires Exact(ns, bad) && Named(ns, p, n, t) && t in ns && ns[t].File? && ns[t].refs > 0
    ensures p != t && Exact(FileDropped(ns, p, n, t), bad)
  {
    hide Owed;
    var m := WithoutName(ns, p, n);
    var ns' := FileDropped(ns, p, n, t);
    forall i | i in ns' && i !in bad
      ensures ns'[i].links == Owed(ns', i)
    {
      OwedNoName(ns, p, n, i);
      OwedTouch(m, t, if m[t].links > 0 then m[t].links - 1 else 0, m[t].refs, i);
    }
  }

  /** Another name in place of the old one; a directory stays in its parent. */
  function NameMoved(ns: Nodes, p: nat, n: Name, q: nat, l: Name, c: nat): Nodes
    requires IsDir(ns, p) && IsDir(ns, q)
  {
    WithoutName(WithName(ns, q, l, c), p, n)
  }

  lemma NameMovedMeans(ns: Nodes, p: nat, n: Name, q: nat, l: Name, c: nat)
    requires Named(ns, p, n, c) && Linked(ns, q) && l !in ns[q].names && (IsDir(ns, c) ==> Up(ns, c) == q)
    ensures IsDir(ns, p) && IsDir(ns, q) && Moved(ns, NameMoved(ns, p, n, q, l, c), p, n, q, l, c)
  {
    hide Named, Linked, IsDir, Up;
    LinkedIsDir(ns, p);
    LinkedIsDir(ns, q);
    NamedIs(ns, q, l);
    AfterName(ns, q, l, c);
    AfterNoName(WithName(ns, q, l, c), p, n);
  }

  lemma MovesName(ns: Nodes, bad: set<nat>, p: nat, n: Name, q: nat, l: Name, c: nat)
    requires Exact(ns, bad) && Named(ns, p, n, c) && Linked(ns, q) && l !in ns[q].names
    ensures IsDir(ns, p) && IsDir(ns, q) && Exact(NameMoved(ns, p, n, q, l, c), bad)
  {
    hide Owed;
    var m := WithName(ns, q, l, c);
    var ns' := NameMoved(ns, p, n, q, l, c);
    forall i | i in ns' && i !in bad
      ensures ns'[i].links == Owed(ns', i)
    {
      OwedName(ns, q, l, c, i);
      OwedNoName(m, p, n, i);
    }
  }

  // ----- directories

  /** One more subdirectory.  The count is 16 bits wide and nothing keeps it from wrapping around. */
  function CountUp(links: u16): u16 {
    (links + 1) % 0x10000
  }

  function CountDown(links: u16): u16 {
    if links > 1 then links - 1 else links
  }

  function DirCreated(ns: Nodes, p: nat, n: Name, ino: nat): Nodes
    requires IsDir(ns, p) && ino !in ns
  {
    var m: Nodes := WithName(ns[ino := Dir(2, 1, p, map[], true)], p, n, ino);
    Touch(m, p, CountUp(m[p].links), m[p].refs)
  }

  lemma DirCreatedMeans(ns: Nodes, p: nat, n: Name, ino: nat)
    requires Linked(ns, p) && n !in ns[p].names && ino !in ns
    ensures IsDir(ns, p) && Added(ns, DirCreated(ns, p, n, ino), p, n, ino)
    ensures Linked(DirCreated(ns, p, n, ino), ino) && Up(DirCreated(ns, p, n, ino), ino) == p
    ensures DirCreated(ns, p, n, ino).Keys == ns.Keys + {ino}
  {
    hide Named, Linked, IsDir, Up;
    LinkedIsDir(ns, p);
    NamedIs(ns, p, n);
    NotDir(ns, ino);
    var node := Dir(2, 1, p, map[], true);
    AfterNew(ns, ino, node);
    var m1: Nodes := ns[ino := node];
    AfterName(m1, p, n, ino);
    var m2 := WithName(m1, p, n, ino);
    LinkedHas(m2, p);
    AfterTouch(m2, p, CountUp(m2[p].links), m2[p].refs);
  }

  /** What the new directory adds to what is owed: two links to itself, one to its parent. */
  lemma CreateOwed(ns: Nodes, root: nat, p: nat, n: Name, ino: nat, i: nat)
    requires Tree(ns, root) && Linked(ns, p) && n !in ns[p].names && ino !in ns && IsDir(ns, p)
    ensures Owed(DirCreated(ns, p, n, ino), i) == if i == ino then 2 else Owed(ns, i) + if i == p then 1 else 0
  {
    hide Owed, Tree;
    var node := Dir(2, 1, p, map[], true);
    var m1: Nodes := ns[ino := node];
    var m2 := WithName(m1, p, n, ino);
    OwedNew(ns, ino, node, i);
    OwedName(m1, p, n, ino, i);
    OwedTouch(m2, p, CountUp(m2[p].links), m2[p].refs, i);
    Unnamed(ns, root, ino);
  }

  /** The inodes whose counts are wrong after a directory more in `d`. */
  function Spoilt(ns: Nodes, bad: set<nat>, d: nat): set<nat>
    requires d in ns
  {
    if ns[d].links == MAX_LINKS then bad + {d} else bad
  }

  /** One more subdirectory keeps every count right but that of a parent whose count was full. */
  lemma CreatesDir(ns: Nodes, bad: set<nat>, root: nat, p: nat, n: Name, ino: nat)
    requires Tree(ns, root) && Exact(ns, bad) && Linked(ns, p) && n !in ns[p].names && ino !in ns
    ensures IsDir(ns, p) && Exact(DirCreated(ns, p, n, ino), Spoilt(ns, bad, p))
  {
    hide Owed, Tree;
    var ns' := DirCreated(ns, p, n, ino);
    forall i | i in ns' && i !in Spoilt(ns, bad, p)
      ensures ns'[i].links == Owed(ns', i)
    {
      CreateOwed(ns, root, p, n, ino, i);
    }
  }

  lemma LinkedHas(ns: Nodes, d: nat)
    ensures Linked(ns, d) ==> d in ns && ns[d].Dir?
  {
  }

  function DirDropped(ns: Nodes, p: nat, n: Name, c: nat): Nodes
    requires IsDir(ns, p) && IsDir(ns, c) && p != c
  {
    var r := Unlinked(WithoutName(ns, p, n), c);
    Touch(r, p, CountDown(r[p].links), r[p].refs)
  }

  lemma NoNames(ns: Nodes, c: nat)
    requires c in ns && ns[c].Dir? && ns[c].names == map[]
    ensures forall m, x :: !Named(ns, c, m, x)
  {
  }

  lemma DirDroppedMeans(ns: Nodes, q: nat, l: Name, t: nat)
    requires Named(ns, q, l, t) && IsDir(ns, q) && Linked(ns, t) && IsDir(ns, t) && t != q && ns[t].names == map[]
    ensures Dropped(ns, DirDropped(ns, q, l, t), q, l, t)
  {
    NoNames(ns, t);
    hide Linked, IsDir, Up;
    LinkedIsDir(ns, q);
    LinkedHas(ns, q);
    var m1 := WithoutName(ns, q, l);
    AfterNoName(ns, q, l);
    LinkedHas(m1, t);
    AfterRemoved(m1, t);
    var m2 := Unlinked(m1, t);
    AfterTouch(m2, q, CountDown(m2[q].links), m2[q].refs);
    hide Named;
  }

  /** An empty directory is owed two links: its name and its own dot. */
  lemma EmptyDirOwed(ns: Nodes, root: nat, p: nat, n: Name, c: nat)
    requires Tree(ns, root) && Named(ns, p, n, c) && IsDir(ns, c) && ns[c].names == map[]
    ensures Linked(ns, c) && Owed(ns, c) == 2 && p != c && Up(ns, c) == p
  {
    forall x: (nat, Name)
      ensures x in Namers(ns, c) <==> x == (p, n)
    {
      NamersAre(ns, c, x);
    }
    assert Namers(ns, c) == {(p, n)};
    forall d
      ensures !Under(ns, d, c)
    {
      if Linked(ns, d) && d != root {
        var l :| Named(ns, Up(ns, d), l, d);
      }
    }
    assert Kids(ns, c) == {};
  }

  lemma ParentOwed(ns: Nodes, p: nat, c: nat)
    requires Linked(ns, p) && Under(ns, c, p)
    ensures Owed(ns, p) > 1
  {
    assert c in Kids(ns, p);
  }

  /** Where a named directory is. */
  lemma MoveFacts(ns: Nodes, root: nat, p: nat, n: Name, c: nat)
    requires Tree(ns, root) && Named(ns, p, n, c) && IsDir(ns, c)
    ensures Linked(ns, p) && Linked(ns, c) && p != c && IsDir(ns, p) && p in ns && c in ns && ns[p].Dir? && ns[c].Dir? && !Reserved(n)
    ensures ns[c].up == p && Up(ns, c) == p && n in ns[p].names && ns[p].names[n] == c
    ensures forall bad :: Counted(ns, bad) && p !in bad ==> ns[p].links > 1
  {
    ParentOwed(ns, p, c);
    hide Owed;
  }

  lemma DropsDir(ns: Nodes, bad: set<nat>, root: nat, p: nat, n: Name, c: nat)
    requires Tree(ns, root) && Exact(ns, bad) && Named(ns, p, n, c) && IsDir(ns, c) && ns[c].names == map[] && ns[c].refs > 0
    ensures p != c && IsDir(ns, p) && Exact(DirDropped(ns, p, n, c), bad)
  {
    hide Linked, Named, IsDir, Up, Owed, Tree;
    EmptyDirOwed(ns, root, p, n, c);
    MoveFacts(ns, root, p, n, c);
    var ns' := DirDropped(ns, p, n, c);
    forall i | i in ns' && i !in bad
      ensures ns'[i].links == Owed(ns', i)
    {
      DropOwed(ns, p, n, c, i);
    }
  }

  lemma DropOwed(ns: Nodes, p: nat, n: Name, c: nat, i: nat)
    requires Linked(ns, p) && Linked(ns, c) && p != c && IsDir(ns, p) && IsDir(ns, c) && n in ns[p].names && ns[p].names[n] == c
    requires ns[c].up == p && ns[c].names == map[]
    ensures Owed(ns, i) == Owed(DirDropped(ns, p, n, c), i) + (if i == c then 2 else 0) + (if i == p then 1 else 0)
  {
    hide Owed;
    var m1 := WithoutName(ns, p, n);
    var m2 := Unlinked(m1, c);
    OwedNoName(ns, p, n, i);
    OwedRemoved(m1, c, i);
    OwedTouch(m2, p, CountDown(m2[p].links), m2[p].refs, i);
  }

  /** A directory moves to another parent, which it then names as `..`. */
  function DirMoved(ns: Nodes, p: nat, n: Name, q: nat, l: Name, c: nat): Nodes
    requires IsDir(ns, p) && IsDir(ns, q) && IsDir(ns, c)
  {
    var m1 := WithName(ns, q, l, c);
    var m2 := Touch(m1, q, CountUp(m1[q].links), m1[q].refs);
    var m3 := Rehung(m2, c, q);
    var m4 := WithoutName(m3, p, n);
    Touch(m4, p, CountDown(m4[p].links), m4[p].refs)
  }

  lemma DirMovedMeans(ns: Nodes, p: nat, n: Name, q: nat, l: Name, c: nat)
    requires Named(ns, p, n, c) && Linked(ns, q) && l !in ns[q].names && Linked(ns, c) && IsDir(ns, c) && IsDir(ns, p) && IsDir(ns, q)
    requires p != q && q != c && p != c
    ensures Moved(ns, DirMoved(ns, p, n, q, l, c), p, n, q, l, c)
  {
    hide Linked, IsDir, Up;
    NamedIs(ns, q, l);
    LinkedHas(ns, q);
    LinkedIsDir(ns, p);
    LinkedHas(ns, p);
    var m1 := WithName(ns, q, l, c);
    AfterName(ns, q, l, c);
    var m2 := Touch(m1, q, CountUp(m1[q].links), m1[q].refs);
    AfterTouch(m1, q, CountUp(m1[q].links), m1[q].refs);
    AfterUp(m2, c, q);
    var m3 := Rehung(m2, c, q);
    AfterNoName(m3, p, n);
    var m4 := WithoutName(m3, p, n);
    AfterTouch(m4, p, CountDown(m4[p].links), m4[p].refs);
    hide Named;
  }

  lemma MovesDir(ns: Nodes, bad: set<nat>, root: nat, p: nat, n: Name, q: nat, l: Name, c: nat)
    requires Tree(ns, root) && Exact(ns, bad) && Named(ns, p, n, c) && IsDir(ns, c) && Linked(ns, q) && l !in ns[q].names
    requires p != q && q != c
    ensures IsDir(ns, p) && IsDir(ns, q) && Exact(DirMoved(ns, p, n, q, l, c), Spoilt(ns, bad, q))
  {
    hide Linked, Named, IsDir, Up, Owed, Tree;
    MoveFacts(ns, root, p, n, c);
    LinkedIsDir(ns, q);
    LinkedHas(ns, q);
    var ns' := DirMoved(ns, p, n, q, l, c);
    forall i | i in ns' && i !in Spoilt(ns, bad, q)
      ensures ns'[i].links == Owed(ns', i)
    {
      MoveOwed(ns, p, n, q, l, c, i);
    }
  }

  lemma MoveOwed(ns: Nodes, p: nat, n: Name, q: nat, l: Name, c: nat, i: nat)
    requires Linked(ns, p) && Linked(ns, q) && Linked(ns, c) && p != q && q != c && p != c
    requires n in ns[p].names && ns[p].names[n] == c && l !in ns[q].names && ns[c].up == p
    requires IsDir(ns, p) && IsDir(ns, q) && IsDir(ns, c)
    ensures Owed(DirMoved(ns, p, n, q, l, c), i) + (if i == p then 1 else 0) == Owed(ns, i) + (if i == q then 1 else 0)
  {
    hide Owed;
    var m1 := WithName(ns, q, l, c);
    var m2 := Touch(m1, q, CountUp(m1[q].links), m1[q].refs);
    var m3 := Rehung(m2, c, q);
    var m4 := WithoutName(m3, p, n);
    OwedName(ns, q, l, c, i);
    OwedTouch(m1, q, CountUp(m1[q].links), m1[q].refs, i);
    OwedUp(m2, c, q, i);
    OwedNoName(m3, p, n, i);
    OwedTouch(m4, p, CountDown(m4[p].links), m4[p].refs, i);
  }

  // ----- aliases and reclaim

  /** An alias comes or goes, and the inode does not lose its last hold. */
  lemma CountsAlias(ns: Nodes, bad: set<nat>, i: nat, refs: nat)
    requires Exact(ns, bad) && i in ns && (ns[i].links > 0 || refs > 0)
    ensures Exact(Touch(ns, i, ns[i].links, refs), bad)
  {
    hide Owed;
    var ns' := Touch(ns, i, ns[i].links, refs);
    forall x | x in ns' && x !in bad
      ensures ns'[x].links == Owed(ns', x)
    {
      OwedTouch(ns, i, ns[i].links, refs, x);
    }
  }

  /** The count of an inode that is wrong anyway changes. */
  lemma CountsBad(ns: Nodes, bad: set<nat>, i: nat, links: u16)
    requires Exact(ns, bad) && i in ns
    ensures Exact(Touch(ns, i, links, ns[i].refs), bad + {i})
  {
    hide Owed;
    var ns' := Touch(ns, i, links, ns[i].refs);
    forall x | x in ns' && x !in bad + {i}
      ensures ns'[x].links == Owed(ns', x)
    {
      OwedTouch(ns, i, links, ns[i].refs, x);
    }
  }

  /** A name stands for the inode, or it is a directory that has not been removed. */
  predicate Wanted(ns: Nodes, i: nat) {
    Linked(ns, i) || exists d, n :: d in ns && ns[d].Dir? && n in ns[d].names && Named(ns, d, n, i)
  }

  /** The last alias of an inode without names goes: nothing wanted it, unless its count is one of the wrong ones. */
  lemma Reclaims(ns: Nodes, bad: set<nat>, i: nat)
    requires Exact(ns, bad) && i in ns && ns[i].links == 0
    ensures Wanted(ns, i) ==> i in bad
    ensures !Wanted(ns, i) ==> Exact(ns - {i}, bad - {i})
  {
    if i !in bad { NotOwed(ns, bad, i); }
    hide Owed;
    if !Wanted(ns, i) {
      var ns': Nodes := ns - {i};
      forall x | x in ns' && x !in bad - {i}
        ensures ns'[x].links == Owed(ns', x)
      {
        OwedGone(ns, i, x);
      }
    }
  }

  lemma NotOwed(ns: Nodes, bad: set<nat>, i: nat)
    requires Counted(ns, bad) && i in ns && i !in bad && ns[i].links == 0
    ensures !Wanted(ns, i)
  {
    assert ns[i].links == Owed(ns, i);
    forall d, n
      ensures !Named(ns, d, n, i)
    {
      NamersAre(ns, i, (d, n));
    }
  }

  /** The tree survives the loss of an inode exactly when nothing wants it. */
  lemma GoneTree(ns: Nodes, root: nat, i: nat)
    requires Tree(ns, root) && i in ns
    ensures Tree(ns - {i}, root) <==> !Wanted(ns, i)
  {
    if Wanted(ns, i) {
      StillNamed(ns, root, i);
    } else {
      hide Linked, Named, IsDir, Up;
      AfterGone(ns, i);
      var ns': Nodes := ns - {i};
      forall c | Linked(ns', c) && c != root
        ensures exists n :: Named(ns', Up(ns', c), n, c)
      {
        var n :| Named(ns, Up(ns, c), n, c);
        assert Named(ns', Up(ns', c), n, c);
      }
    }
  }

  lemma StillNamed(ns: Nodes, root: nat, i: nat)
    requires Tree(ns, root) && i in ns && Wanted(ns, i)
    ensures !Tree(ns - {i}, root)
  {
    var ns': Nodes := ns - {i};
    if i != root {
      assert exists d, n :: Named(ns, d, n, i) by {
        if Linked(ns, i) {
          var n :| Named(ns, Up(ns, i), n, i);
        }
      }
      var d, n :| Named(ns, d, n, i);
      assert d != i;
      assert Named(ns', d, n, i);
    }
  }

  // ----- replacing a name

  /** First dropping what has the new name and then moving comes to the same. */
  lemma ReplacedMeans(ns: Nodes, m: Nodes, ns': Nodes, p: nat, n: Name, q: nat, l: Name, c: nat, t: nat)
    requires Moved(m, ns', p, n, q, l, c) && Named(ns, q, l, t) && Dropped(ns, m, q, l, t)
    ensures Moved(ns, ns', p, n, q, l, c)
  {
    hide Named, Linked, IsDir, Up;
    forall d
      ensures Named(ns, q, l, d) <==> d == t
    {
      NamedOne(ns, q, l, t, d);
    }
  }

  /** What the driver does when the new name exists: the entry changes over, then the target is dropped. */
  function FileReplaced(ns: Nodes, p: nat, n: Name, q: nat, l: Name, c: nat, t: nat): Nodes
    requires IsDir(ns, p) && IsDir(ns, q) && t in ns && t != p && t != q
  {
    var m := WithoutName(WithName(ns, q, l, c), p, n);
    Touch(m, t, if m[t].links > 0 then m[t].links - 1 else 0, m[t].refs)
  }

  lemma FileReplacedAs(ns: Nodes, p: nat, n: Name, q: nat, l: Name, c: nat, t: nat)
    requires IsDir(ns, p) && IsDir(ns, q) && t in ns && t != p && t != q
    ensures FileReplaced(ns, p, n, q, l, c, t) == NameMoved(FileDropped(ns, q, l, t), p, n, q, l, c)
  {
    assert (ns[q].names - {l})[l := c] == ns[q].names[l := c];
  }

  lemma DroppedKeeps(ns: Nodes, p: nat, n: Name, q: nat, l: Name, c: nat, t: nat)
    requires Named(ns, p, n, c) && Named(ns, q, l, t) && c != t && t in ns && ns[t].File? && c in ns && ns[c].File?
    ensures t != p && t != q && IsDir(ns, p) && IsDir(ns, q)
    ensures var m := FileDropped(ns, q, l, t);
            Named(m, p, n, c) && !IsDir(m, c) && Linked(m, q) && l !in m[q].names
  {
  }

  lemma FileReplacedMeans(ns: Nodes, p: nat, n: Name, q: nat, l: Name, c: nat, t: nat)
    requires Named(ns, p, n, c) && Named(ns, q, l, t) && c != t && c in ns && ns[c].File? && t in ns && ns[t].File?
    ensures t != p && t != q && IsDir(ns, p) && IsDir(ns, q) && Moved(ns, FileReplaced(ns, p, n, q, l, c, t), p, n, q, l, c)
  {
    DroppedKeeps(ns, p, n, q, l, c, t);
    hide Named, Linked, IsDir, Up;
    FileDroppedMeans(ns, q, l, t);
    NameMovedMeans(FileDropped(ns, q, l, t), p, n, q, l, c);
    FileReplacedAs(ns, p, n, q, l, c, t);
    ReplacedMeans(ns, FileDropped(ns, q, l, t), FileReplaced(ns, p, n, q, l, c, t), p, n, q, l, c, t);
  }

  /** A file takes the place of another. */
  lemma ReplacesFile(ns: Nodes, bad: set<nat>, p: nat, n: Name, q: nat, l: Name, c: nat, t: nat)
    requires Exact(ns, bad) && Named(ns, p, n, c) && Named(ns, q, l, t) && c != t && c in ns && ns[c].File? && t in ns && ns[t].File? && ns[t].refs > 0
    ensures t != p && t != q && IsDir(ns, p) && IsDir(ns, q) && Exact(FileReplaced(ns, p, n, q, l, c, t), bad)
  {
    hide Exact;
    DropsFile(ns, bad, q, l, t);
    DroppedKeeps(ns, p, n, q, l, c, t);
    MovesName(FileDropped(ns, q, l, t), bad, p, n, q, l, c);
    FileReplacedAs(ns, p, n, q, l, c, t);
  }

  /** A directory takes the place of an empty one, in the same parent or another. */
  function DirReplaced(ns: Nodes, p: nat, n: Name, q: nat, l: Name, c: nat, t: nat): Nodes
    requires IsDir(ns, p) && IsDir(ns, q) && IsDir(ns, c) && IsDir(ns, t) && t != p && t != q && t != c
  {
    var m := if p == q then NameMoved(ns, p, n, q, l, c) else DirMoved(ns, p, n, q, l, c);
    var r := Unlinked(m, t);
    Touch(r, q, CountDown(r[q].links), r[q].refs)
  }

  /** The other order: first the target is dropped, then the name moves. */
  function DroppedFirst(ns: Nodes, p: nat, n: Name, q: nat, l: Name, c: nat, t: nat): Nodes
    requires IsDir(ns, p) && IsDir(ns, q) && IsDir(ns, c) && IsDir(ns, t) && t != p && t != q && t != c
  {
    var m := DirDropped(ns, q, l, t);
    if p == q then NameMoved(m, p, n, q, l, c) else DirMoved(m, p, n, q, l, c)
  }

  lemma OrderHere(ns: Nodes, p: nat, n: Name, l: Name, c: nat, t: nat)
    requires IsDir(ns, p) && IsDir(ns, c) && IsDir(ns, t) && t != p && t != c && c != p && n != l
    ensures DirReplaced(ns, p, n, p, l, c, t) == DroppedFirst(ns, p, n, p, l, c, t)
  {
    assert (ns[p].names - {l})[l := c] == ns[p].names[l := c];
  }

  /** `ms` is `ns` after `c` moved from `p` to `q` and took the place of `t`, with these links for `q`. */
  ghost predicate Took(ns: Nodes, ms: Nodes, p: nat, n: Name, q: nat, l: Name, c: nat, t: nat, links: u16)
    requires IsDir(ns, p) && IsDir(ns, q) && IsDir(ns, c) && IsDir(ns, t)
  {
    && ms.Keys == ns.Keys && (forall i :: i in ns && i != p && i != q && i != c && i != t ==> ms[i] == ns[i])
    && ms[p] == ns[p].(names := ns[p].names - {n}, links := CountDown(ns[p].links))
    && ms[q] == ns[q].(names := ns[q].names[l := c], links := links)
    && ms[c] == ns[c].(up := q) && ms[t] == ns[t].(links := 0, linked := false)
  }

  lemma DirReplacedTook(ns: Nodes, p: nat, n: Name, q: nat, l: Name, c: nat, t: nat)
    requires IsDir(ns, p) && IsDir(ns, q) && IsDir(ns, c) && IsDir(ns, t) && t != p && t != q && t != c && c != q && c != p && p != q
    ensures Took(ns, DirReplaced(ns, p, n, q, l, c, t), p, n, q, l, c, t, CountDown(CountUp(ns[q].links)))
  {
    hide CountUp, CountDown;
  }

  lemma DroppedFirstTook(ns: Nodes, p: nat, n: Name, q: nat, l: Name, c: nat, t: nat)
    requires IsDir(ns, p) && IsDir(ns, q) && IsDir(ns, c) && IsDir(ns, t) && t != p && t != q && t != c && c != q && c != p && p != q
    ensures Took(ns, DroppedFirst(ns, p, n, q, l, c, t), p, n, q, l, c, t, CountUp(CountDown(ns[q].links)))
  {
    hide CountUp, CountDown;
    assert (ns[q].names - {l})[l := c] == ns[q].names[l := c];
  }

  /** Both orders leave the same but for the count of the new parent; that too is the same while there is one to take away, and room for one. */
  lemma OrderThere(ns: Nodes, p: nat, n: Name, q: nat, l: Name, c: nat, t: nat)
    requires IsDir(ns, p) && IsDir(ns, q) && IsDir(ns, c) && IsDir(ns, t) && t != p && t != q && t != c && c != q && c != p && p != q
    ensures var x, y := DirReplaced(ns, p, n, q, l, c, t), DroppedFirst(ns, p, n, q, l, c, t);
            && q in y && q in x && x == Touch(y, q, x[q].links, y[q].refs)
            && x[q].links == CountDown(CountUp(ns[q].links)) && y[q].links == CountUp(CountDown(ns[q].links))
  {
    hide DirReplaced, DroppedFirst, CountUp, CountDown;
    DirReplacedTook(ns, p, n, q, l, c, t);
    DroppedFirstTook(ns, p, n, q, l, c, t);
  }

  lemma SameButCount(x: Nodes, y: Nodes, q: nat)
    requires q in x && q in y && x == Touch(y, q, x[q].links, y[q].refs) && x[q].links == y[q].links
    ensures x == y
  {
  }

  lemma DirDroppedKeeps(ns: Nodes, root: nat, p: nat, n: Name, q: nat, l: Name, c: nat, t: nat)
    requires Tree(ns, root) && Named(ns, p, n, c) && Named(ns, q, l, t) && c != t && IsDir(ns, c) && IsDir(ns, t) && ns[t].names == map[]
    ensures t != q && t != p && IsDir(ns, q) && IsDir(ns, p) && (p == q ==> n != l)
    ensures var m := DirDropped(ns, q, l, t);
            Named(m, p, n, c) && Linked(m, c) && IsDir(m, c) && IsDir(m, p) && IsDir(m, q) && Linked(m, q) && l !in m[q].names && Up(m, c) == p
  {
    hide Held, Once;
  }

  lemma DirReplacedMeans(ns: Nodes, root: nat, p: nat, n: Name, q: nat, l: Name, c: nat, t: nat)
    requires Tree(ns, root) && Named(ns, p, n, c) && Named(ns, q, l, t) && c != t && q != c && IsDir(ns, c) && IsDir(ns, t) && ns[t].names == map[]
    ensures t != p && t != q && IsDir(ns, p) && IsDir(ns, q) && Moved(ns, DirReplaced(ns, p, n, q, l, c, t), p, n, q, l, c)
  {
    hide Tree, Named, Linked, IsDir, Up;
    MoveFacts(ns, root, p, n, c);
    MoveFacts(ns, root, q, l, t);
    DirDroppedKeeps(ns, root, p, n, q, l, c, t);
    DirDroppedMeans(ns, q, l, t);
    var m := DirDropped(ns, q, l, t);
    var x, y := DirReplaced(ns, p, n, q, l, c, t), DroppedFirst(ns, p, n, q, l, c, t);
    if p == q {
      NameMovedMeans(m, p, n, q, l, c);
      OrderHere(ns, p, n, l, c, t);
    } else {
      DirMovedMeans(m, p, n, q, l, c);
      OrderThere(ns, p, n, q, l, c, t);
      AfterTouch(y, q, x[q].links, y[q].refs);
    }
    ReplacedMeans(ns, m, y, p, n, q, l, c, t);
  }

  lemma ExactCounted(ns: Nodes, bad: set<nat>)
    requires Exact(ns, bad)
    ensures Counted(ns, bad)
  {
  }

  lemma ReplacesDir(ns: Nodes, bad: set<nat>, root: nat, p: nat, n: Name, q: nat, l: Name, c: nat, t: nat)
    requires Tree(ns, root) && Exact(ns, bad) && Named(ns, p, n, c) && Named(ns, q, l, t) && c != t && q != c && IsDir(ns, c) && IsDir(ns, t)
    requires ns[t].names == map[] && ns[t].refs > 0
    ensures t != p && t != q && IsDir(ns, p) && IsDir(ns, q)
    ensures Exact(DirReplaced(ns, p, n, q, l, c, t), if p == q then bad else Spoilt(ns, bad, q))
  {
    hide Exact, Linked, Named, IsDir, Tree, Dropped, Up, DirReplaced, DirMoved, NameMoved;
    MoveFacts(ns, root, p, n, c);
    MoveFacts(ns, root, q, l, t);
    DropsDir(ns, bad, root, q, l, t);
    DirDroppedKeeps(ns, root, p, n, q, l, c, t);
    DirDroppedMeans(ns, q, l, t);
    var m := DirDropped(ns, q, l, t);
    DroppedTree(ns, m, root, q, l, t);
    if p == q {
      OrderHere(ns, p, n, l, c, t);
      MovesName(m, bad, p, n, q, l, c);
    } else {
      ExactCounted(ns, bad);
      assert q !in bad ==> 1 < ns[q].links;
      MovesDir(m, bad, root, p, n, q, l, c);
      OrderThere(ns, p, n, q, l, c, t);
      OrderCounts(DirReplaced(ns, p, n, q, l, c, t), DroppedFirst(ns, p, n, q, l, c, t), bad, q, ns[q].links);
    }
  }

  /** The two orders count the same, or the count is wrong before or after. */
  lemma OrderCounts(x: Nodes, y: Nodes, bad: set<nat>, q: nat, links: u16)
    requires q in x && q in y && x == Touch(y, q, x[q].links, y[q].refs)
    requires x[q].links == CountDown(CountUp(links)) && y[q].links == CountUp(CountDown(links))
    requires Exact(y, bad) && (q !in bad ==> 1 < links)
    ensures Exact(x, if links == MAX_LINKS then bad + {q} else bad)
  {
    hide Exact;
    if q in bad || links == MAX_LINKS {
      CountsBad(y, bad, q, x[q].links);
      assert q in bad ==> bad + {q} == bad;
    } else {
      SameButCount(x, y, q);
    }
  }
}
