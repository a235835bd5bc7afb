/**
 * The calls that create, link, remove and rename names, open and close aliases.  Over any run of
 * them the names form a tree below the root.  Every count is right, and inodes go exactly when nothing
 * refers to them any more, as long as no directory gets more subdirectories than its count can hold.
 */
module NameRuns {
  import opened DirRecords
  import opened LinkCounts
  import opened Namespace
  import opened Ancestry

  // ----- the driver

  datatype Status =
    | Ok | Unchanged | NotDirectory | NoEntry | Exists | NotEmpty | IsDirectory | NotPermitted | TooManyLinks | NoSpace | Invalid

  /** How often each number was handed out or given back. */
  type Tally = map<nat, nat>

  function Times(t: Tally, i: nat): nat {
    if i in t then t[i] else 0
  }

  /** Every inode handed out is in the table or was given back, once. */
  ghost predicate Balanced(ns: Nodes, created: Tally, reclaimed: Tally) {
    forall i :: Times(created, i) == Times(reclaimed, i) + if i in ns then 1 else 0
  }

  lemma RootAlone(root: nat)
    ensures var ns: Nodes := map[root := Dir(2, 1, root, map[], true)];
            Tree(ns, root) && Exact(ns, {}) && Balanced(ns, map[root := 1], map[]) && Rooted(ns, root)
  {
    var ns: Nodes := map[root := Dir(2, 1, root, map[], true)];
    assert forall c :: Linked(ns, c) ==> c == root;
    assert Up(ns, root) == root && Linked(ns, root);
    assert Namers(ns, root) == {};
    assert Kids(ns, root) == {root};
    ClimbZero(ns, root);
  }

  /** The count of the directory is as high as it can be stored. */
  predicate Full(ns: Nodes, d: nat) {
    IsDir(ns, d) && ns[d].links == MAX_LINKS
  }

  /** Name `n` of `p` is a directory, and becomes one more subdirectory of `q`, whose count is full. */
  predicate Overfills(ns: Nodes, p: nat, n: Name, q: nat) {
    p != q && IsDir(ns, p) && n in ns[p].names && IsDir(ns, ns[p].names[n]) && Full(ns, q)
  }

  /** A linked directory can take the name: it is no dot and not there yet. */
  predicate Accepts(ns: Nodes, p: nat, n: Name) {
    Linked(ns, p) && !Reserved(n) && n !in ns[p].names
  }

  /** Name `n` of `p` can become name `l` of `q`: a directory does not go below itself, and there is room for a new name, or `c` may replace what has the name. */
  ghost predicate CanMove(ns: Nodes, p: nat, n: Name, q: nat, l: Name, replacing: bool, room: bool) {
    && Linked(ns, p) && Linked(ns, q) && n in ns[p].names && ns[p].names[n] in ns && !Reserved(l)
    && (IsDir(ns, ns[p].names[n]) ==> !Above(ns, q, ns[p].names[n]))
    && if l in ns[q].names
       then replacing && ns[q].names[l] in ns && CanReplace(ns, ns[p].names[n], ns[q].names[l])
       else !replacing && room
  }

  /**
   * Both directories are there and not removed, the old name is, and no directory goes below itself.  A new name
   * needs room; one that is there must be replaced on purpose, a file by a file, an empty directory by a directory.
   */
  lemma CanMoveIs(ns: Nodes, p: nat, n: Name, q: nat, l: Name, replacing: bool, room: bool)
    ensures CanMove(ns, p, n, q, l, replacing, room) <==>
            && p in ns && ns[p].Dir? && ns[p].linked && q in ns && ns[q].Dir? && ns[q].linked
            && n in ns[p].names && ns[p].names[n] in ns && l != [] && l != [46] && l != [46, 46]
            && (ns[ns[p].names[n]].Dir? ==> !Above(ns, q, ns[p].names[n]))
            && (l !in ns[q].names ==> !replacing && room)
            && (l in ns[q].names ==>
                  && replacing && ns[q].names[l] in ns && ns[q].names[l] != ns[p].names[n]
                  && ns[ns[q].names[l]].Dir? == ns[ns[p].names[n]].Dir?
                  && (ns[ns[q].names[l]].Dir? ==> ns[ns[q].names[l]].names == map[]))
  {
    hide Above;
  }

  /** Only a file replaces a file, and only a directory an empty directory. */
  predicate CanReplace(ns: Nodes, c: nat, t: nat)
    requires c in ns && t in ns
  {
    c != t && ns[c].Dir? == ns[t].Dir? && (ns[t].Dir? ==> ns[t].names == map[])
  }

  /** The count of the directory is zero although it is linked, and so is owed a link for its own dot at least. */
  predicate Wrapped(ns: Nodes, d: nat) {
    Linked(ns, d) && ns[d].links == 0
  }

  // ----- names are no aliases

  lemma NameMovedRefs(ns: Nodes, p: nat, n: Name, q: nat, l: Name, c: nat)
    requires IsDir(ns, p) && IsDir(ns, q)
    ensures forall i :: i in ns ==> i in NameMoved(ns, p, n, q, l, c) && NameMoved(ns, p, n, q, l, c)[i].refs == ns[i].refs
  {
  }

  lemma MovedRefs(ns: Nodes, p: nat, n: Name, q: nat, l: Name, c: nat)
    requires IsDir(ns, p) && IsDir(ns, q) && IsDir(ns, c)
    ensures forall i :: i in ns ==> i in DirMoved(ns, p, n, q, l, c) && DirMoved(ns, p, n, q, l, c)[i].refs == ns[i].refs
  {
    hide CountUp, CountDown;
  }

  lemma FileReplacedRefs(ns: Nodes, p: nat, n: Name, q: nat, l: Name, c: nat, t: nat)
    requires IsDir(ns, p) && IsDir(ns, q) && t in ns && t != p && t != q
    ensures forall i :: i in ns ==> i in FileReplaced(ns, p, n, q, l, c, t) && FileReplaced(ns, p, n, q, l, c, t)[i].refs == ns[i].refs
  {
  }

  lemma DirReplacedRefs(ns: Nodes, p: nat, n: Name, q: nat, l: Name, c: nat, t: nat)
    requires IsDir(ns, p) && IsDir(ns, q) && IsDir(ns, c) && IsDir(ns, t) && t != p && t != q && t != c
    ensures forall i :: i in ns ==> i in DirReplaced(ns, p, n, q, l, c, t) && DirReplaced(ns, p, n, q, l, c, t)[i].refs == ns[i].refs
  {
    hide CountUp, CountDown, DirMoved, NameMoved;
    NameMovedRefs(ns, p, n, q, l, c);
    MovedRefs(ns, p, n, q, l, c);
  }

  lemma MovedKeys(ns: Nodes, ms: Nodes, p: nat, n: Name, q: nat, l: Name, c: nat)
    requires Moved(ns, ms, p, n, q, l, c)
    ensures ms.Keys == ns.Keys
  {
  }

  lemma MovedCount(ns: Nodes, p: nat, n: Name, q: nat, l: Name, c: nat)
    requires IsDir(ns, p) && Linked(ns, q) && IsDir(ns, q) && IsDir(ns, c) && p != q && q != c
    ensures Full(ns, q) ==> Wrapped(DirMoved(ns, p, n, q, l, c), q)
  {
  }

  lemma ReplacedCount(ns: Nodes, root: nat, p: nat, n: Name, q: nat, l: Name, c: nat, t: nat)
    requires Tree(ns, root) && Named(ns, p, n, c) && Named(ns, q, l, t) && c != t && q != c && IsDir(ns, c) && IsDir(ns, t) && ns[t].names == map[]
    requires p != q
    ensures t != p && t != q && IsDir(ns, p) && IsDir(ns, q)
    ensures Full(ns, q) ==> Wrapped(DirReplaced(ns, p, n, q, l, c, t), q)
  {
    MoveFacts(ns, root, p, n, c);
    MoveFacts(ns, root, q, l, t);
    hide Tree, DirReplaced;
    DirReplacedTook(ns, p, n, q, l, c, t);
  }

  class Fs {
    const root: nat
    var nodes: Nodes
    ghost var created: Tally
    ghost var reclaimed: Tally
    /** The directories that got one more subdirectory when their count was full. */
    ghost var spoilt: set<nat>

    /** The names form a tree below the root, every inode handed out is accounted for, and every other count is right. */
    ghost predicate Sound()
      reads this
    {
      Tree(nodes, root) && Rooted(nodes, root) && Balanced(nodes, created, reclaimed) && Exact(nodes, spoilt)
    }

    ghost predicate Valid()
      reads this
    {
      Sound() && spoilt == {}
    }

    /** An empty volume: the root directory, its own parent, held by the mount. */
    constructor (root: nat)
      ensures Valid() && this.root == root && nodes == map[root := Dir(2, 1, root, map[], true)]
    {
      this.root := root;
      nodes := map[root := Dir(2, 1, root, map[], true)];
      created, reclaimed, spoilt := map[root := 1], map[], {};
      new;
      RootAlone(root);
    }

    /** Creates a file or a directory on a fresh inode. */
    method Create(p: nat, n: Name, ino: nat, dir: bool, room: bool) returns (r: Status)
      requires Sound() && ino !in nodes
      modifies this
      ensures Sound() && reclaimed == old(reclaimed)
      ensures spoilt == old(spoilt) + if r.Ok? && dir && Full(old(nodes), p) then {p} else {}
      ensures r.Ok? && dir && Full(old(nodes), p) ==> Wrapped(nodes, p)
      ensures r.Ok? <==> p in old(nodes) && old(nodes)[p].Dir? && old(nodes)[p].linked && n != [] && n != [46] && n != [46, 46]
                         && n !in old(nodes)[p].names && room
      ensures r.Ok? <==> Accepts(old(nodes), p, n) && room
      ensures (r.NotDirectory? <==> !IsDir(old(nodes), p)) && (r.NoEntry? <==> IsDir(old(nodes), p) && !Linked(old(nodes), p))
      ensures (r.Exists? <==> Linked(old(nodes), p) && !Accepts(old(nodes), p, n)) && (r.NoSpace? <==> Accepts(old(nodes), p, n) && !room)
      ensures r.Ok? ==> nodes == if dir then DirCreated(old(nodes), p, n, ino) else FileCreated(old(nodes), p, n, ino)
      ensures r.Ok? ==> nodes.Keys == old(nodes.Keys) + {ino} && Added(old(nodes), nodes, p, n, ino)
      ensures r.Ok? ==> IsDir(nodes, ino) == dir && (dir ==> Linked(nodes, ino) && Up(nodes, ino) == p)
      ensures r.Ok? ==> nodes[ino].refs == 1 && nodes[ino].links == (if dir then 2 else 1) && forall i :: i in old(nodes) ==> nodes[i].refs == old(nodes)[i].refs
      ensures !r.Ok? ==> unchanged(this)
    {
      hide Tree, Exact, Owed, Added, Rooted;
      if p !in nodes || !nodes[p].Dir? {
        return NotDirectory;
      }
      if !nodes[p].linked {
        return NoEntry;
      }
      if Reserved(n) || n in nodes[p].names {
        return Exists;
      }
      if !room {
        return NoSpace;
      }
      if dir {
        CreatesDir(nodes, spoilt, root, p, n, ino);
        DirCreatedMeans(nodes, p, n, ino);
        AddedTree(nodes, DirCreated(nodes, p, n, ino), root, p, n, ino);
        AddedRooted(nodes, DirCreated(nodes, p, n, ino), root, p, n, ino);
        spoilt := Spoilt(nodes, spoilt, p);
        nodes := DirCreated(nodes, p, n, ino);
      } else {
        CreatesFile(nodes, spoilt, root, p, n, ino);
        FileCreatedMeans(nodes, p, n, ino);
        AddedTree(nodes, FileCreated(nodes, p, n, ino), root, p, n, ino);
        AddedRooted(nodes, FileCreated(nodes, p, n, ino), root, p, n, ino);
        nodes := FileCreated(nodes, p, n, ino);
      }
      created := created[ino := Times(created, ino) + 1];
      r := Ok;
    }

    /** Gives a file one more name. */
    method Link(p: nat, n: Name, t: nat, room: bool) returns (r: Status)
      requires Sound() && t in nodes
      modifies this
      ensures Sound() && created == old(created) && reclaimed == old(reclaimed) && spoilt == old(spoilt)
      ensures r.Ok? <==> p in old(nodes) && old(nodes)[p].Dir? && old(nodes)[p].linked && n != [] && n != [46] && n != [46, 46]
                         && n !in old(nodes)[p].names && room && old(nodes)[t].File? && 0 < old(nodes)[t].links < 65535
      ensures r.Ok? <==> Accepts(old(nodes), p, n) && room && old(nodes)[t].File? && 0 < old(nodes)[t].links < MAX_LINKS
      ensures (r.NotDirectory? <==> !IsDir(old(nodes), p)) && (r.NoEntry? <==> IsDir(old(nodes), p) && !Linked(old(nodes), p))
      ensures r.Exists? <==> Linked(old(nodes), p) && !Accepts(old(nodes), p, n)
      ensures r.NotPermitted? <==> Accepts(old(nodes), p, n) && (old(nodes)[t].Dir? || old(nodes)[t].links == 0)
      ensures r.TooManyLinks? <==> Accepts(old(nodes), p, n) && old(nodes)[t].File? && old(nodes)[t].links == 65535
      ensures r.Ok? ==> nodes.Keys == old(nodes.Keys) && Added(old(nodes), nodes, p, n, t)
      ensures r.Ok? ==> forall i :: i in nodes ==> nodes[i].refs == old(nodes)[i].refs + if i == t then 1 else 0
      ensures !r.Ok? ==> unchanged(this)
    {
      hide Tree, Exact, Owed, Added, Rooted;
      if p !in nodes || !nodes[p].Dir? {
        return NotDirectory;
      }
      if !nodes[p].linked {
        return NoEntry;
      }
      if Reserved(n) || n in nodes[p].names {
        return Exists;
      }
      if nodes[t].Dir? || nodes[t].links == 0 {
        return NotPermitted;
      }
      if nodes[t].links == MAX_LINKS {
        return TooManyLinks;
      }
      if !room {
        return NoSpace;
      }
      LinksFile(nodes, spoilt, p, n, t);
      FileLinkedMeans(nodes, p, n, t);
      NotDir(nodes, t);
      AddedTree(nodes, FileLinked(nodes, p, n, t), root, p, n, t);
      AddedRooted(nodes, FileLinked(nodes, p, n, t), root, p, n, t);
      nodes := FileLinked(nodes, p, n, t);
      r := Ok;
    }

    /** Removes the name of a file or of an empty directory; the caller holds an alias of what it names. */
    method Remove(p: nat, n: Name, c: nat) returns (r: Status)
      requires Sound() && c in nodes && nodes[c].refs > 0
      modifies this
      ensures Sound() && created == old(created) && reclaimed == old(reclaimed) && spoilt == old(spoilt)
      ensures r.Ok? <==> p in old(nodes) && old(nodes)[p].Dir? && old(nodes)[p].linked && n in old(nodes)[p].names && old(nodes)[p].names[n] == c
                         && (old(nodes)[c].Dir? ==> old(nodes)[c].names == map[])
      ensures r.Ok? <==> Named(old(nodes), p, n, c) && (old(nodes)[c].Dir? ==> old(nodes)[c].names == map[])
      ensures (r.NotDirectory? <==> !IsDir(old(nodes), p)) && (r.NotEmpty? <==> Named(old(nodes), p, n, c) && !r.Ok?)
      ensures r.NoEntry? <==> IsDir(old(nodes), p) && !Named(old(nodes), p, n, c)
      ensures r.Ok? ==> Dropped(old(nodes), nodes, p, n, c) && nodes.Keys == old(nodes.Keys)
      ensures r.Ok? ==> forall i :: i in nodes ==> nodes[i].refs == old(nodes)[i].refs
      ensures !r.Ok? ==> unchanged(this)
    {
      hide Tree, Exact, Owed, Dropped, Rooted;
      if p !in nodes || !nodes[p].Dir? {
        return NotDirectory;
      }
      if !nodes[p].linked || n !in nodes[p].names || nodes[p].names[n] != c {
        return NoEntry;
      }
      if nodes[c].Dir? && nodes[c].names != map[] {
        return NotEmpty;
      }
      if nodes[c].Dir? {
        MoveFacts(nodes, root, p, n, c);
        DropsDir(nodes, spoilt, root, p, n, c);
        DirDroppedMeans(nodes, p, n, c);
        DroppedTree(nodes, DirDropped(nodes, p, n, c), root, p, n, c);
        DroppedRooted(nodes, DirDropped(nodes, p, n, c), root, p, n, c);
        nodes := DirDropped(nodes, p, n, c);
      } else {
        DropsFile(nodes, spoilt, p, n, c);
        FileDroppedMeans(nodes, p, n, c);
        DroppedTree(nodes, FileDropped(nodes, p, n, c), root, p, n, c);
        DroppedRooted(nodes, FileDropped(nodes, p, n, c), root, p, n, c);
        nodes := FileDropped(nodes, p, n, c);
      }
      r := Ok;
    }

    /**
     * Moves name `n` of `p` to name `l` of `q`.  A name that is there already is replaced when the
     * caller says so, and nothing happens when both stand for the same inode.
     */
    method Rename(p: nat, n: Name, q: nat, l: Name, replacing: bool, room: bool) returns (r: Status)
      requires Sound() && (forall t :: Named(nodes, q, l, t) && t in nodes ==> nodes[t].refs > 0)
      modifies this
      ensures Sound() && created == old(created) && reclaimed == old(reclaimed)
      ensures spoilt == old(spoilt) + if r.Ok? && Overfills(old(nodes), p, n, q) then {q} else {}
      ensures r.Ok? && Overfills(old(nodes), p, n, q) ==> Wrapped(nodes, q)
      ensures r.Ok? <==> CanMove(old(nodes), p, n, q, l, replacing, room)
      ensures r.Ok? ==> Moved(old(nodes), nodes, p, n, q, l, old(nodes)[p].names[n]) && nodes.Keys == old(nodes.Keys)
      ensures r.Ok? ==> forall i :: i in nodes ==> nodes[i].refs == old(nodes)[i].refs
      ensures r.Unchanged? <==> replacing && exists c :: Named(old(nodes), p, n, c) && Named(old(nodes), q, l, c)
      ensures !r.Ok? ==> unchanged(this)
    {
      hide Tree, Exact, Owed, Moved, Rooted;
      if p !in nodes || !nodes[p].Dir? || q !in nodes || !nodes[q].Dir? {
        return NotDirectory;
      }
      if !nodes[p].linked || !nodes[q].linked || n !in nodes[p].names {
        return NoEntry;
      }
      var c := nodes[p].names[n];
      NamesExist(nodes, root, p, n, c);
      NamesAllowed(nodes, root, q, l);
      if Reserved(l) {
        return Invalid;
      }
      var found := l in nodes[q].names;
      if replacing && found && nodes[q].names[l] == c {
        assert Named(nodes, p, n, c) && Named(nodes, q, l, c);
        return Unchanged;
      }
      if nodes[c].Dir? {
        var below := GoesBelow(nodes, root, q, c);
        if below {
          return Invalid;
        }
        NotItself(nodes, q, c);
      }
      if replacing != found {
        return if found then Exists else NoEntry;
      }
      if found {
        r := ReplaceName(p, n, q, l, c, nodes[q].names[l]);
        return;
      }
      if !room {
        return NoSpace;
      }
      MoveName(p, n, q, l, c);
      r := Ok;
    }

    /** Moves a name to a place where there is none. */
    method MoveName(p: nat, n: Name, q: nat, l: Name, c: nat)
      requires Sound() && Named(nodes, p, n, c) && c in nodes && Linked(nodes, q) && l !in nodes[q].names && !Reserved(l) && q != c
      requires IsDir(nodes, c) ==> !Above(nodes, q, c)
      modifies this`nodes, this`spoilt
      ensures Sound() && Moved(old(nodes), nodes, p, n, q, l, c) && nodes.Keys == old(nodes.Keys)
      ensures forall i :: i in nodes ==> nodes[i].refs == old(nodes)[i].refs
      ensures spoilt == old(spoilt) + if Overfills(old(nodes), p, n, q) then {q} else {}
      ensures Overfills(old(nodes), p, n, q) ==> Wrapped(nodes, q)
    {
      hide Tree, Exact, Owed, Linked, Moved, Rooted, Above, Wrapped, DirMoved, NameMoved;
      NotYet(nodes, q, l, c);
      LinkedIsDir(nodes, q);
      ghost var ns := nodes;
      if nodes[c].Dir? && p != q {
        MoveFacts(nodes, root, p, n, c);
        MovesDir(nodes, spoilt, root, p, n, q, l, c);
        DirMovedMeans(nodes, p, n, q, l, c);
        MovedCount(nodes, p, n, q, l, c);
        MovedRefs(nodes, p, n, q, l, c);
        spoilt := Spoilt(nodes, spoilt, q);
        nodes := DirMoved(nodes, p, n, q, l, c);
      } else {
        if nodes[c].Dir? { MoveFacts(nodes, root, p, n, c); }
        MovesName(nodes, spoilt, p, n, q, l, c);
        NameMovedMeans(nodes, p, n, q, l, c);
        NameMovedRefs(nodes, p, n, q, l, c);
        nodes := NameMoved(nodes, p, n, q, l, c);
      }
      MovedKeys(ns, nodes, p, n, q, l, c);
      MovedTree(ns, nodes, root, p, n, q, l, c);
      MovedRooted(ns, nodes, root, p, n, q, l, c);
    }

    /** Puts `c` in the place of `t`. */
    method ReplaceName(p: nat, n: Name, q: nat, l: Name, c: nat, t: nat) returns (r: Status)
      requires Sound() && Named(nodes, p, n, c) && Named(nodes, q, l, t) && c in nodes && t in nodes && nodes[t].refs > 0 && q != c
      requires IsDir(nodes, c) && c != t ==> !Above(nodes, q, c)
      modifies this`nodes, this`spoilt
      ensures Sound() && (r.Unchanged? <==> c == t)
      ensures spoilt == old(spoilt) + if r.Ok? && Overfills(old(nodes), p, n, q) then {q} else {}
      ensures r.Ok? && Overfills(old(nodes), p, n, q) ==> Wrapped(nodes, q)
      ensures r.Ok? ==> Moved(old(nodes), nodes, p, n, q, l, c) && nodes.Keys == old(nodes.Keys)
      ensures r.Ok? ==> forall i :: i in nodes ==> nodes[i].refs == old(nodes)[i].refs
      ensures !r.Ok? ==> nodes == old(nodes) && spoilt == old(spoilt)
      ensures r.Ok? <==> CanReplace(old(nodes), c, t)
    {
      hide Tree, Exact, Owed, Linked, Moved, Rooted, Above, Wrapped, DirReplaced, FileReplaced;
      if c == t {
        return Unchanged;
      }
      OtherThere(nodes, q, l, c, t);
      NamesAllowed(nodes, root, q, l);
      if nodes[c].Dir? && !nodes[t].Dir? {
        return NotDirectory;
      }
      if !nodes[c].Dir? && nodes[t].Dir? {
        return IsDirectory;
      }
      if nodes[t].Dir? && nodes[t].names != map[] {
        return NotEmpty;
      }
      ghost var ns := nodes;
      if nodes[c].Dir? {
        ReplacesDir(nodes, spoilt, root, p, n, q, l, c, t);
        DirReplacedMeans(nodes, root, p, n, q, l, c, t);
        DirReplacedRefs(nodes, p, n, q, l, c, t);
        if p != q {
          ReplacedCount(nodes, root, p, n, q, l, c, t);
          spoilt := Spoilt(nodes, spoilt, q);
        }
        nodes := DirReplaced(nodes, p, n, q, l, c, t);
      } else {
        ReplacesFile(nodes, spoilt, p, n, q, l, c, t);
        FileReplacedMeans(nodes, p, n, q, l, c, t);
        FileReplacedRefs(nodes, p, n, q, l, c, t);
        nodes := FileReplaced(nodes, p, n, q, l, c, t);
      }
      MovedKeys(ns, nodes, p, n, q, l, c);
      MovedTree(ns, nodes, root, p, n, q, l, c);
      MovedRooted(ns, nodes, root, p, n, q, l, c);
      r := Ok;
    }

    /** A new alias for an inode. */
    method Open(i: nat)
      requires Sound() && i in nodes
      modifies this`nodes
      ensures Sound() && nodes == Touch(old(nodes), i, old(nodes)[i].links, old(nodes)[i].refs + 1)
    {
      hide Tree, Exact, Rooted;
      CountsAlias(nodes, spoilt, i, nodes[i].refs + 1);
      TouchedSound(nodes, root, i, nodes[i].refs + 1);
      nodes := Touch(nodes, i, nodes[i].links, nodes[i].refs + 1);
    }

    /**
     * Drops an alias.  The inode is given back exactly when that was the last one and its count is zero.  Then
     * nothing names it, unless it is a directory whose count was spoilt, and exactly so the tree survives.
     */
    method Close(i: nat)
      requires Sound() && i in nodes && nodes[i].refs > 0
      modifies this
      ensures created == old(created) && Balanced(nodes, created, reclaimed)
      ensures Sound() <==> !(i !in nodes && Wanted(old(nodes), i))
      ensures i !in nodes && Wanted(old(nodes), i) ==> i in old(spoilt)
      ensures spoilt == if i in nodes then old(spoilt) else old(spoilt) - {i}
      ensures i !in nodes <==> old(nodes)[i].links == 0 && old(nodes)[i].refs == 1
      ensures i in nodes ==> nodes == Touch(old(nodes), i, old(nodes)[i].links, old(nodes)[i].refs - 1) && reclaimed == old(reclaimed)
      ensures i !in nodes ==> nodes == old(nodes) - {i} && reclaimed == old(reclaimed)[i := Times(old(reclaimed), i) + 1]
    {
      hide Tree, Exact, Rooted, Wanted;
      if nodes[i].refs == 1 && nodes[i].links == 0 {
        Reclaims(nodes, spoilt, i);
        GoneTree(nodes, root, i);
        if !Wanted(nodes, i) { GoneRooted(nodes, root, i); }
        nodes, spoilt := nodes - {i}, spoilt - {i};
        reclaimed := reclaimed[i := Times(reclaimed, i) + 1];
      } else {
        CountsAlias(nodes, spoilt, i, nodes[i].refs - 1);
        TouchedSound(nodes, root, i, nodes[i].refs - 1);
        nodes := Touch(nodes, i, nodes[i].links, nodes[i].refs - 1);
      }
    }
  }

  /** Whether `c` is `q` or above it: walks up from `q` to the root. */
  method GoesBelow(ns: Nodes, root: nat, q: nat, c: nat) returns (below: bool)
    requires Tree(ns, root) && Rooted(ns, root) && Linked(ns, q)
    ensures below <==> Above(ns, q, c)
  {
    hide Tree, Linked, Up, Climb;
    ghost var depth: nat :| Climb(ns, q, depth) == root;
    ghost var k: nat := 0;
    var d := q;
    ClimbZero(ns, q);
    while d != root
      invariant d == Climb(ns, q, k) && Linked(ns, d) && k <= depth && forall i: nat :: i < k ==> Climb(ns, q, i) != c
      decreases depth - k
    {
      if d == c {
        return true;
      }
      ClimbMore(ns, root, q, k, depth);
      d := UpOf(ns, d);
      k := k + 1;
    }
    below := d == c;
    if !below { NeverMeets(ns, root, q, k, c); }
  }

  function UpOf(ns: Nodes, d: nat): nat
    requires Linked(ns, d)
  {
    ns[d].up
  }

  lemma ClimbMore(ns: Nodes, root: nat, q: nat, k: nat, depth: nat)
    requires Tree(ns, root) && Linked(ns, Climb(ns, q, k)) && Climb(ns, q, k) != root && Climb(ns, q, depth) == root && k <= depth
    ensures Climb(ns, q, k + 1) == UpOf(ns, Climb(ns, q, k)) && Linked(ns, Climb(ns, q, k + 1)) && k < depth
  {
    hide Tree;
    ParentLinked(ns, root, Climb(ns, q, k));
  }

  lemma NeverMeets(ns: Nodes, root: nat, q: nat, k: nat, c: nat)
    requires Tree(ns, root) && Climb(ns, q, k) == root && c != root && forall i: nat :: i < k ==> Climb(ns, q, i) != c
    ensures !Above(ns, q, c)
  {
    hide Climb;
    assert Up(ns, root) == root;
    hide Tree, Up;
    forall i: nat
      ensures Climb(ns, q, i) != c
    {
      if i >= k { RootStays(ns, root, q, k, i); }
    }
  }

  lemma NotItself(ns: Nodes, q: nat, c: nat)
    requires !Above(ns, q, c)
    ensures q != c
  {
    ClimbZero(ns, q);
  }

  lemma NotYet(ns: Nodes, q: nat, l: Name, c: nat)
    requires Linked(ns, q) && l !in ns[q].names
    ensures !Named(ns, q, l, c)
  {
  }

  lemma OtherThere(ns: Nodes, q: nat, l: Name, c: nat, t: nat)
    requires Named(ns, q, l, t) && c != t
    ensures !Named(ns, q, l, c) && Linked(ns, q)
  {
  }

  // ----- everything stays within reach

  lemma AddedRooted(ns: Nodes, ms: Nodes, root: nat, p: nat, n: Name, i: nat)
    requires Tree(ns, root) && Rooted(ns, root) && Added(ns, ms, p, n, i) && Linked(ns, p) && ms.Keys <= ns.Keys + {i}
    requires i !in ns && Linked(ms, i) ==> Up(ms, i) == p
    ensures Rooted(ms, root)
  {
    hide Tree, Named, Up, Rooted;
    RootedKept(ns, ms, root);
  }

  lemma DroppedRooted(ns: Nodes, ms: Nodes, root: nat, p: nat, n: Name, c: nat)
    requires Tree(ns, root) && Rooted(ns, root) && Dropped(ns, ms, p, n, c)
    ensures Rooted(ms, root)
  {
    hide Tree, Named, Up, Linked, IsDir, Rooted;
    RootedKept(ns, ms, root);
  }

  lemma MovedRooted(ns: Nodes, ms: Nodes, root: nat, p: nat, n: Name, q: nat, l: Name, c: nat)
    requires Tree(ns, root) && Rooted(ns, root) && Named(ns, p, n, c) && Linked(ns, q) && Moved(ns, ms, p, n, q, l, c)
    requires IsDir(ns, c) ==> !Above(ns, q, c) && !Named(ns, q, l, c)
    ensures Rooted(ms, root)
  {
    hide Tree, Named, Up, Linked, IsDir, Rooted, Moved, Above;
    if IsDir(ns, c) {
      MoveRooted(ns, ms, root, p, n, q, l, c);
    } else {
      FileMoveRooted(ns, ms, root, p, n, q, l, c);
    }
  }

  lemma TouchedSound(ns: Nodes, root: nat, i: nat, refs: nat)
    requires Tree(ns, root) && Rooted(ns, root) && i in ns
    ensures var ms := Touch(ns, i, ns[i].links, refs);
            Tree(ms, root) && Rooted(ms, root)
  {
    var ms := Touch(ns, i, ns[i].links, refs);
    AfterTouch(ns, i, ns[i].links, refs);
    hide Tree, Rooted, Touch;
    SameTree(ns, ms, root);
    RootedKept(ns, ms, root);
  }

  lemma GoneRooted(ns: Nodes, root: nat, i: nat)
    requires Tree(ns, root) && Rooted(ns, root) && i in ns && !Wanted(ns, i)
    ensures Rooted(ns - {i}, root)
  {
    hide Tree, Rooted;
    RootedKept(ns, ns - {i}, root);
  }

  lemma NamesExist(ns: Nodes, root: nat, p: nat, n: Name, c: nat)
    requires Tree(ns, root) && Named(ns, p, n, c)
    ensures c in ns && !Reserved(n)
  {
  }

  lemma NamesAllowed(ns: Nodes, root: nat, q: nat, l: Name)
    requires Tree(ns, root)
    ensures forall t :: Named(ns, q, l, t) ==> t in ns && !Reserved(l)
  {
  }

  datatype Op =
    | CreateOp(p: nat, n: Name, ino: nat, dir: bool, room: bool)
    | LinkOp(p: nat, n: Name, t: nat, room: bool)
    | RemoveOp(p: nat, n: Name, c: nat)
    | RenameOp(p: nat, n: Name, q: nat, l: Name, replacing: bool, room: bool)
    | OpenOp(i: nat)
    | CloseOp(i: nat)

  ghost predicate TargetIsHeld(ns: Nodes, q: nat, l: Name) {
    forall t :: Named(ns, q, l, t) && t in ns ==> ns[t].refs > 0
  }

  /**
   * What one operation does to the table.  An operation whose vnodes do not exist cannot be called and
   * is passed over; a refused one changes nothing.
   */
  ghost predicate Does(ns: Nodes, op: Op, ms: Nodes) {
    match op
    case CreateOp(p, n, ino, dir, room) =>
      if ino !in ns && Accepts(ns, p, n) && room
      then ms.Keys == ns.Keys + {ino} && Added(ns, ms, p, n, ino) && IsDir(ms, ino) == dir && (dir ==> Linked(ms, ino) && Up(ms, ino) == p)
      else ms == ns
    case LinkOp(p, n, t, room) =>
      if t in ns && Accepts(ns, p, n) && room && ns[t].File? && 0 < ns[t].links < MAX_LINKS
      then ms.Keys == ns.Keys && Added(ns, ms, p, n, t)
      else ms == ns
    case RemoveOp(p, n, c) =>
      if c in ns && ns[c].refs > 0 && Named(ns, p, n, c) && (ns[c].Dir? ==> ns[c].names == map[])
      then Dropped(ns, ms, p, n, c)
      else ms == ns
    case RenameOp(p, n, q, l, replacing, room) =>
      if TargetIsHeld(ns, q, l) && CanMove(ns, p, n, q, l, replacing, room)
      then Moved(ns, ms, p, n, q, l, ns[p].names[n])
      else ms == ns
    case OpenOp(i) =>
      if i in ns then ms == Touch(ns, i, ns[i].links, ns[i].refs + 1) else ms == ns
    case CloseOp(i) =>
      if i !in ns || ns[i].refs == 0 then ms == ns
      else if ns[i].links == 0 && ns[i].refs == 1 then ms == ns - {i}
      else ms == Touch(ns, i, ns[i].links, ns[i].refs - 1)
  }

  /** The operation makes one more subdirectory where the count is full already. */
  ghost predicate Overflows(ns: Nodes, op: Op) {
    match op
    case CreateOp(p, n, ino, dir, room) => ino !in ns && Accepts(ns, p, n) && room && dir && Full(ns, p)
    case RenameOp(p, n, q, l, replacing, room) =>
      TargetIsHeld(ns, q, l) && CanMove(ns, p, n, q, l, replacing, room) && Overfills(ns, p, n, q)
    case _ => false
  }

  /** The directory that the operation overflows, if any. */
  ghost function Overflown(ns: Nodes, op: Op): set<nat> {
    if Overflows(ns, op) then {if op.CreateOp? then op.p else op.q} else {}
  }

  /** The operation gives back an inode that is still wanted. */
  predicate Loses(ns: Nodes, op: Op) {
    op.CloseOp? && op.i in ns && ns[op.i].links == 0 && ns[op.i].refs == 1 && Wanted(ns, op.i)
  }

  /**
   * One operation did what it does to the names.  The directory that it overflowed, if any, joined those whose
   * counts are spoilt, an inode given back left them, and only one of them can be given back while it is wanted.
   */
  ghost predicate Went(ns: Nodes, bad: set<nat>, op: Op, ms: Nodes, worse: set<nat>) {
    && Does(ns, op, ms) && worse == bad + Overflown(ns, op) - (ns.Keys - ms.Keys)
    && (forall d :: d in Overflown(ns, op) ==> Wrapped(ms, d)) && (Loses(ns, op) ==> op.i in bad)
  }

  // ----- aliases

  /** The operation hands out an alias of `i`: that of the new inode, of the new name, or another one. */
  ghost predicate HandsOut(ns: Nodes, op: Op, i: nat) {
    match op
    case CreateOp(p, n, ino, dir, room) => i == ino && ino !in ns && Accepts(ns, p, n) && room
    case LinkOp(p, n, t, room) => i == t && t in ns && Accepts(ns, p, n) && room && ns[t].File? && 0 < ns[t].links < MAX_LINKS
    case OpenOp(j) => i == j && j in ns
    case _ => false
  }

  /** The operation gives an alias of `i` up. */
  ghost predicate TakesBack(ns: Nodes, op: Op, i: nat) {
    op == CloseOp(i) && i in ns && ns[i].refs > 0
  }

  /** Aliases of `i` that the first `k` operations of a run handed out, and those they took back. */
  ghost function HandedOut(trace: seq<Nodes>, ops: seq<Op>, k: nat, i: nat): nat
    requires k <= |ops| && k < |trace|
  {
    if k == 0 then 0 else HandedOut(trace, ops, k - 1, i) + if HandsOut(trace[k - 1], ops[k - 1], i) then 1 else 0
  }

  ghost function TakenBack(trace: seq<Nodes>, ops: seq<Op>, k: nat, i: nat): nat
    requires k <= |ops| && k < |trace|
  {
    if k == 0 then 0 else TakenBack(trace, ops, k - 1, i) + if TakesBack(trace[k - 1], ops[k - 1], i) then 1 else 0
  }

  ghost function Refs(ns: Nodes, i: nat): nat {
    if i in ns then ns[i].refs else 0
  }

  /** The references of every inode follow the aliases handed out and taken back. */
  ghost predicate Aliased(ns: Nodes, op: Op, ms: Nodes) {
    forall i :: Refs(ms, i) + (if TakesBack(ns, op, i) then 1 else 0) == Refs(ns, i) + if HandsOut(ns, op, i) then 1 else 0
  }

  lemma {:induction false} RefsAreAliases(trace: seq<Nodes>, ops: seq<Op>, k: nat, i: nat)
    requires k <= |ops| && k < |trace| && forall j :: 0 <= j < k ==> Aliased(trace[j], ops[j], trace[j + 1])
    ensures Refs(trace[k], i) + TakenBack(trace, ops, k, i) == Refs(trace[0], i) + HandedOut(trace, ops, k, i)
  {
    hide HandsOut, TakesBack;
    if k > 0 {
      RefsAreAliases(trace, ops, k - 1, i);
      assert Aliased(trace[k - 1], ops[k - 1], trace[k - 1 + 1]);
    }
  }

  method StepAdd(fs: Fs, op: Op)
    requires fs.Sound() && (op.CreateOp? || op.LinkOp?)
    modifies fs
    ensures Aliased(old(fs.nodes), op, fs.nodes)
    ensures Went(old(fs.nodes), old(fs.spoilt), op, fs.nodes, fs.spoilt) && Balanced(fs.nodes, fs.created, fs.reclaimed)
    ensures fs.Sound() && !Loses(old(fs.nodes), op)
  {
    hide Tree, Exact, Balanced, Owed, Linked, Named, Moved, Added, Dropped, CanMove, Accepts, Rooted, Wanted, DirCreated, FileCreated;
    var r;
    if op.CreateOp? {
      if op.ino !in fs.nodes {
        r := fs.Create(op.p, op.n, op.ino, op.dir, op.room);
      }
    } else if op.t in fs.nodes {
      r := fs.Link(op.p, op.n, op.t, op.room);
    }
  }

  method StepChange(fs: Fs, op: Op)
    requires fs.Sound() && (op.RemoveOp? || op.RenameOp?)
    modifies fs
    ensures Aliased(old(fs.nodes), op, fs.nodes)
    ensures Went(old(fs.nodes), old(fs.spoilt), op, fs.nodes, fs.spoilt) && Balanced(fs.nodes, fs.created, fs.reclaimed)
    ensures fs.Sound() && !Loses(old(fs.nodes), op)
  {
    hide Tree, Exact, Balanced, Owed, Linked, Named, Moved, Added, Dropped, CanMove, Accepts, Rooted, Wanted, DirCreated, FileCreated;
    var r;
    if op.RemoveOp? {
      if op.c in fs.nodes && fs.nodes[op.c].refs > 0 {
        r := fs.Remove(op.p, op.n, op.c);
      }
    } else {
      var held := TargetHeld(fs.nodes, op.q, op.l);
      if held {
        r := fs.Rename(op.p, op.n, op.q, op.l, op.replacing, op.room);
      }
    }
  }

  method Step(fs: Fs, op: Op)
    requires fs.Sound()
    modifies fs
    ensures Aliased(old(fs.nodes), op, fs.nodes)
    ensures Went(old(fs.nodes), old(fs.spoilt), op, fs.nodes, fs.spoilt) && Balanced(fs.nodes, fs.created, fs.reclaimed)
    ensures fs.Sound() <==> !Loses(old(fs.nodes), op)
  {
    hide Tree, Exact, Balanced, Owed, Linked, Named, Moved, Added, Dropped, CanMove, Accepts, Rooted, Wanted, DirCreated, FileCreated;
    match op {
      case CreateOp(_, _, _, _, _) => StepAdd(fs, op);
      case LinkOp(_, _, _, _) => StepAdd(fs, op);
      case RemoveOp(_, _, _) => StepChange(fs, op);
      case RenameOp(_, _, _, _, _, _) => StepChange(fs, op);
      case OpenOp(i) =>
        if i in fs.nodes {
          fs.Open(i);
        }
      case CloseOp(i) =>
        if i in fs.nodes && fs.nodes[i].refs > 0 {
          fs.Close(i);
        }
    }
  }

  /** The count is the number of entries, dots included, that stand for the inode. */
  ghost predicate Right(ns: Nodes, i: nat)
    requires i in ns
  {
    ns[i].links == |AllNamers(ns, i)|
  }

  ghost predicate AllRight(ns: Nodes) {
    forall i :: i in ns ==> Right(ns, i)
  }

  /**
   * Any run of operations on any volume whose counts are right.  Each operation does what it says to the names.
   * Every count is right at every point but those of directories that an operation overflowed, which are wrong
   * right after it: all counts are right throughout if and only if none did.  Every directory is within reach of the
   * root, and every inode ever created is either there or was given back once.  Only an overflown directory can be
   * given back while something names it, and there the run ends.
   */
  method Run(fs: Fs, ops: seq<Op>) returns (ghost trace: seq<Nodes>, ghost spoilt: seq<set<nat>>, done: nat)
    requires fs.Valid()
    modifies fs
    ensures done <= |ops| && |trace| == |spoilt| == done + 1 && trace[0] == old(fs.nodes) && trace[done] == fs.nodes && spoilt[0] == {}
    ensures forall k :: 0 <= k < done ==> Went(trace[k], spoilt[k], ops[k], trace[k + 1], spoilt[k + 1])
    ensures forall k :: 0 <= k < done ==> Aliased(trace[k], ops[k], trace[k + 1])
    ensures forall k :: 0 <= k < done ==> Stands(trace[k], spoilt[k], fs.root)
    ensures done == 0 || !Loses(trace[done - 1], ops[done - 1]) ==> Stands(fs.nodes, spoilt[done], fs.root) && done == |ops|
    ensures (forall k :: 0 <= k <= done ==> AllRight(trace[k])) <==> (forall k :: 0 <= k < done ==> !Overflows(trace[k], ops[k]))
    ensures forall k, i :: 0 <= k <= done ==>
              Refs(trace[k], i) + TakenBack(trace, ops, k, i) == Refs(trace[0], i) + HandedOut(trace, ops, k, i)
    ensures forall k, i :: 0 <= k <= done && i !in trace[k] ==>
              TakenBack(trace, ops, k, i) == Refs(trace[0], i) + HandedOut(trace, ops, k, i)
    ensures Balanced(fs.nodes, fs.created, fs.reclaimed)
  {
    hide Aliased, HandedOut, TakenBack, Refs, Tree, Exact, Balanced, Does, Rooted, Overflows, Overflown, Loses, Right, AllRight, Wrapped, Stands, Went;
    trace, spoilt, done := [fs.nodes], [{}], 0;
    LinksAreEntries(fs.nodes, {}, fs.root);
    while done < |ops|
      invariant done <= |ops| && |trace| == |spoilt| == done + 1 && trace[0] == old(fs.nodes) && spoilt[0] == {}
      invariant trace[done] == fs.nodes && spoilt[done] == fs.spoilt && fs.Sound()
      invariant forall k :: 0 <= k < done ==> Went(trace[k], spoilt[k], ops[k], trace[k + 1], spoilt[k + 1])
      invariant forall k :: 0 <= k <= done ==> Stands(trace[k], spoilt[k], fs.root)
      invariant forall k :: 0 <= k < done ==> Aliased(trace[k], ops[k], trace[k + 1])
      invariant done > 0 ==> !Loses(trace[done - 1], ops[done - 1])
    {
      var lost := Loses(fs.nodes, ops[done]);
      Step(fs, ops[done]);
      trace, spoilt, done := trace + [fs.nodes], spoilt + [fs.spoilt], done + 1;
      if lost {
        break;
      }
      LinksAreEntries(fs.nodes, fs.spoilt, fs.root);
    }
    Verdict(trace, spoilt, ops, done, fs.root);
    AllAliases(trace, ops, done);
  }

  lemma AllAliases(trace: seq<Nodes>, ops: seq<Op>, done: nat)
    requires done <= |ops| && |trace| == done + 1 && forall k :: 0 <= k < done ==> Aliased(trace[k], ops[k], trace[k + 1])
    ensures forall k, i :: 0 <= k <= done ==>
              Refs(trace[k], i) + TakenBack(trace, ops, k, i) == Refs(trace[0], i) + HandedOut(trace, ops, k, i)
    ensures forall k, i :: 0 <= k <= done && i !in trace[k] ==>
              TakenBack(trace, ops, k, i) == Refs(trace[0], i) + HandedOut(trace, ops, k, i)
  {
    hide Aliased, HandedOut, TakenBack;
    forall k, i | 0 <= k <= done
      ensures Refs(trace[k], i) + TakenBack(trace, ops, k, i) == Refs(trace[0], i) + HandedOut(trace, ops, k, i)
    {
      RefsAreAliases(trace, ops, k, i);
    }
    forall k, i | 0 <= k <= done && i !in trace[k]
      ensures TakenBack(trace, ops, k, i) == Refs(trace[0], i) + HandedOut(trace, ops, k, i)
    {
      RefsAreAliases(trace, ops, k, i);
    }
  }

  /** Whether what a name stands for, if anything, has an alias. */
  method TargetHeld(ns: Nodes, q: nat, l: Name) returns (held: bool)
    ensures held <==> TargetIsHeld(ns, q, l)
  {
    if q in ns && ns[q].Dir? && ns[q].linked && l in ns[q].names {
      var t := ns[q].names[l];
      assert Named(ns, q, l, t);
      held := t !in ns || ns[t].refs > 0;
    } else {
      held := true;
    }
  }

  lemma EntriesOwed(ns: Nodes, root: nat, i: nat)
    requires Tree(ns, root)
    ensures Owed(ns, i) == |AllNamers(ns, i)|
  {
    forall e | Linked(ns, e)
      ensures Undotted(ns[e].names)
    {
      forall n | n in ns[e].names
        ensures !Reserved(n)
      {
        assert Named(ns, e, n, ns[e].names[n]);
      }
    }
    hide Owed, AllNamers, Tree;
    OwedIsEntries(ns, i);
  }

  /** Every count but those of `bad` is the number of entries, dots included, that stand for the inode, and what has neither entries nor aliases is gone. */
  ghost predicate Stands(ns: Nodes, bad: set<nat>, root: nat) {
    && Tree(ns, root) && Rooted(ns, root) && (forall i :: i in ns && i !in bad ==> Right(ns, i))
    && forall i :: i in ns && i !in bad && ns[i].links == 0 ==> ns[i].refs > 0
  }

  /** With the names a tree, a count is what is owed exactly when it is the number of entries, dots included. */
  lemma LinksAreEntries(ns: Nodes, bad: set<nat>, root: nat)
    requires Tree(ns, root) && Rooted(ns, root)
    ensures Exact(ns, bad) <==> Stands(ns, bad, root)
  {
    hide Owed, AllNamers, Tree, Rooted;
    forall i
      ensures Owed(ns, i) == |AllNamers(ns, i)|
    {
      EntriesOwed(ns, root, i);
    }
  }

  /** A linked directory has its own dot, so that a count of zero is wrong. */
  lemma WrappedWrong(ns: Nodes, d: nat)
    requires Wrapped(ns, d)
    ensures !Right(ns, d)
  {
    OwnDot(ns, d);
  }

  lemma {:induction false} StaysClean(trace: seq<Nodes>, spoilt: seq<set<nat>>, ops: seq<Op>, k: nat)
    requires |trace| == |spoilt| <= |ops| + 1 && k < |trace| && spoilt[0] == {}
    requires forall j :: 0 <= j < k ==> Went(trace[j], spoilt[j], ops[j], trace[j + 1], spoilt[j + 1]) && !Overflows(trace[j], ops[j])
    ensures spoilt[k] == {}
  {
    hide Does, Overflows, Wrapped, Loses;
    if k > 0 { StaysClean(trace, spoilt, ops, k - 1); }
  }

  /** All counts of a run are right if and only if nothing overflowed. */
  lemma Verdict(trace: seq<Nodes>, spoilt: seq<set<nat>>, ops: seq<Op>, done: nat, root: nat)
    requires |trace| == |spoilt| == done + 1 <= |ops| + 1 && spoilt[0] == {}
    requires forall k :: 0 <= k < done ==> Went(trace[k], spoilt[k], ops[k], trace[k + 1], spoilt[k + 1]) && Stands(trace[k], spoilt[k], root)
    requires done == 0 || !Loses(trace[done - 1], ops[done - 1]) ==> Stands(trace[done], spoilt[done], root)
    ensures (forall k :: 0 <= k <= done ==> AllRight(trace[k])) <==> (forall k :: 0 <= k < done ==> !Overflows(trace[k], ops[k]))
  {
    hide Does, Overflows, Wrapped, Loses, Right, Tree, Rooted;
    if k :| 0 <= k < done && Overflows(trace[k], ops[k]) {
      var d :| d in Overflown(trace[k], ops[k]);
      WrappedWrong(trace[k + 1], d);
      WrappedThere(trace[k + 1], d);
    } else {
      forall k | 0 <= k <= done
        ensures AllRight(trace[k])
      {
        StaysClean(trace, spoilt, ops, k);
        if k == done > 0 { StaysClean(trace, spoilt, ops, k - 1); }
      }
    }
  }

  lemma WrappedThere(ns: Nodes, d: nat)
    requires Wrapped(ns, d)
    ensures d in ns
  {
  }

  // ----- the directory that overflows

  /**
   * On every volume, wherever a count is right, one more subdirectory of a full directory makes its count zero while
   * 65536 entries stand for it; to give the directory up then breaks the tree.
   */
  lemma FullOverflows(ns: Nodes, bad: set<nat>, root: nat, p: nat, n: Name, ino: nat)
    requires Tree(ns, root) && Exact(ns, bad) && Accepts(ns, p, n) && Full(ns, p) && p !in bad && ino !in ns
    ensures var ms := DirCreated(ns, p, n, ino);
            Tree(ms, root) && Wrapped(ms, p) && |AllNamers(ms, p)| == 0x10000 && !Tree(ms - {p}, root)
  {
    var ms := DirCreated(ns, p, n, ino);
    assert ns[p].links == Owed(ns, p);
    CreateOwed(ns, root, p, n, ino, p);
    DirCreatedMeans(ns, p, n, ino);
    hide Owed, Tree, Added, AllNamers;
    AddedTree(ns, ms, root, p, n, ino);
    GoneTree(ms, root, p);
    EntriesOwed(ms, root, p);
  }

  const SHELF: Name := [100]

  /** The names of 65536 subdirectories. */
  function Numbered(k: u16): Name {
    [100, k / 256, k % 256]
  }

  /** So many subdirectories of inode 3 have been made, as inodes from 4 on. */
  ghost predicate Shelved(ns: Nodes, count: nat) {
    && Named(ns, 2, SHELF, 3) && Linked(ns, 3) && ns[3].refs == 1
    && (forall i :: i in ns ==> i < 4 + count) && (forall i :: 4 <= i < 4 + count ==> Under(ns, i, 3))
    && (forall n :: n in ns[3].names ==> |n| == 3 && n[1] as int * 256 + n[2] as int < count)
  }

  lemma ShelfBegins(ns: Nodes)
    requires ns == DirCreated(map[2 := Dir(2, 1, 2, map[], true)], 2, SHELF, 3)
    ensures Shelved(ns, 0) && IsDir(ns, 3) && ns[3].links == 2
  {
  }

  lemma ShelfGrows(ns: Nodes, k: u16)
    requires Shelved(ns, k)
    ensures !Reserved(Numbered(k)) && Accepts(ns, 3, Numbered(k)) && 4 + k !in ns && IsDir(ns, 3)
    ensures IsDir(DirCreated(ns, 3, Numbered(k), 4 + k), 3) && Shelved(DirCreated(ns, 3, Numbered(k), 4 + k), k + 1)
    ensures DirCreated(ns, 3, Numbered(k), 4 + k)[3].links == CountUp(ns[3].links)
  {
    var ms := DirCreated(ns, 3, Numbered(k), 4 + k);
    forall i | 4 <= i < 4 + (k + 1)
      ensures Under(ms, i, 3)
    {
      assert i < 4 + k ==> Under(ns, i, 3);
    }
    assert ms[3].names == ns[3].names[Numbered(k) := 4 + k];
  }

  lemma ShelfFalls(ns: Nodes)
    requires Shelved(ns, 65534)
    ensures var ms: Nodes := ns - {3};
            Wanted(ns, 3) && ns[3].refs == 1 && Named(ms, 2, SHELF, 3) && forall i :: 4 <= i < 65538 ==> Under(ms, i, 3)
  {
    var ms: Nodes := ns - {3};
    forall i | 4 <= i < 65538
      ensures Under(ms, i, 3)
    {
      assert Under(ns, i, 3);
    }
  }

  /** Makes one more subdirectory. */
  method Shelve(fs: Fs, k: u16) returns (r: Status)
    requires fs.Sound() && Shelved(fs.nodes, k) && IsDir(fs.nodes, 3)
    modifies fs
    ensures fs.Sound() && Shelved(fs.nodes, k + 1) && r.Ok? && IsDir(fs.nodes, 3) && fs.nodes[3].links == CountUp(old(fs.nodes)[3].links)
  {
    hide Fs.Sound, Tree, Exact, Rooted, Added, Linked, DirCreated, Numbered, CountUp;
    ShelfGrows(fs.nodes, k);
    r := fs.Create(3, Numbered(k), 4 + k, true, true);
  }

  /**
   * A run from the empty volume: a directory gets 65534 subdirectories, every call succeeds, and its count is
   * zero.  When its alias goes it is reclaimed, although the root still names it and all of them are below it.
   */
  method ShelfRun() returns (fs: Fs)
    ensures fresh(fs) && fs.root == 2 && Balanced(fs.nodes, fs.created, fs.reclaimed) && !fs.Sound()
    ensures Named(fs.nodes, 2, SHELF, 3) && 3 !in fs.nodes && forall i :: 4 <= i < 65538 ==> Under(fs.nodes, i, 3)
  {
    hide Fs.Sound, Tree, Exact, Rooted, Balanced, Added, Wanted, Under, Named, Shelved, DirCreated;
    fs := new Fs(2);
    var r := fs.Create(2, SHELF, 3, true, true);
    ShelfBegins(fs.nodes);
    for k := 0 to 65534
      invariant fs.Sound() && Shelved(fs.nodes, k) && IsDir(fs.nodes, 3) && fs.nodes[3].links == (2 + k) % 0x10000
    {
      r := Shelve(fs, k);
    }
    ShelfFalls(fs.nodes);
    fs.Close(3);
  }
}
