/**
 * The allocator of the ext2 driver, shared by blocks and inodes: one bitmap and one free
 * counter per group, and the free counter of the superblock above them.
 */
module ItemAllocator {
  import opened BitWords
  import opened BitmapAllocator
  import BlockTree

  /** Numbering of items: blocks start at the superblock offset, inode numbers are one above their bit. */
  datatype Layout = Layout(first: nat, total: nat, perGroup: nat, bias: nat, groups: nat)

  /** How many items group `g` has: the last group may be short. */
  function InGroup(l: Layout, g: nat): (n: nat)
    ensures n <= l.perGroup
  {
    if l.first + g * l.perGroup >= l.total then 0
    else if l.perGroup > l.total - (l.first + g * l.perGroup) then l.total - (l.first + g * l.perGroup)
    else l.perGroup
  }

  function Item(l: Layout, g: nat, bit: nat): nat {
    l.first + g * l.perGroup + bit + l.bias
  }

  predicate Known(l: Layout, v: nat) {
    l.perGroup > 0 && l.first + l.bias <= v < l.total + l.bias && (v - l.bias - l.first) / l.perGroup < l.groups
  }

  function GroupOf(l: Layout, v: nat): nat
    requires Known(l, v)
  {
    (v - l.bias - l.first) / l.perGroup
  }

  function BitOf(l: Layout, v: nat): nat
    requires Known(l, v)
  {
    (v - l.bias - l.first) % l.perGroup
  }

  lemma Locate(l: Layout, v: nat)
    requires Known(l, v)
    ensures GroupOf(l, v) < l.groups && BitOf(l, v) < InGroup(l, GroupOf(l, v)) <= l.perGroup
    ensures Item(l, GroupOf(l, v), BitOf(l, v)) == v
  {
    var z := v - l.bias - l.first;
    assert z == z / l.perGroup * l.perGroup + z % l.perGroup;
  }

  lemma Place(l: Layout, g: nat, bit: nat)
    requires l.perGroup > 0 && g < l.groups && bit < InGroup(l, g)
    ensures Known(l, Item(l, g, bit)) && GroupOf(l, Item(l, g, bit)) == g && BitOf(l, Item(l, g, bit)) == bit
  {
    BlockTree.JoinIndex(g, bit, l.groups, l.perGroup);
  }

  lemma GroupOrder(l: Layout, g: nat, bit: nat, h: nat, b: nat)
    requires h > g && bit < l.perGroup
    ensures Item(l, g, bit) < Item(l, h, b)
  {
    BlockTree.MulMonotone(g + 1, h, l.perGroup);
  }

  type Bitmaps = seq<seq<bv32>>

  ghost predicate Sized(l: Layout, bitmaps: Bitmaps) {
    && l.perGroup > 0 && |bitmaps| == l.groups
    && forall g :: 0 <= g < l.groups ==> l.perGroup <= 32 * |bitmaps[g]|
  }

  /** Item `v` is marked used. */
  ghost predicate Taken(l: Layout, bitmaps: Bitmaps, v: nat)
    requires Sized(l, bitmaps) && Known(l, v)
  {
    Locate(l, v);
    Get(bitmaps[GroupOf(l, v)], BitOf(l, v))
  }

  ghost function TakenSet(l: Layout, bitmaps: Bitmaps): set<nat>
    requires Sized(l, bitmaps)
  {
    set v | l.first + l.bias <= v < l.total + l.bias && Known(l, v) && Taken(l, bitmaps, v)
  }

  /** Which bit says whether an item is used: items are numbered group by group. */
  lemma TakenIs(l: Layout, bitmaps: Bitmaps, v: nat)
    requires Sized(l, bitmaps)
    ensures Known(l, v) <==> l.first + l.bias <= v < l.total + l.bias && (v - l.bias - l.first) / l.perGroup < l.groups
    ensures v in TakenSet(l, bitmaps) <==>
            && l.first + l.bias <= v < l.total + l.bias && (v - l.bias - l.first) / l.perGroup < l.groups
            && Get(bitmaps[(v - l.bias - l.first) / l.perGroup], (v - l.bias - l.first) % l.perGroup)
    ensures forall g: nat :: InGroup(l, g) == if l.first + g * l.perGroup + l.perGroup <= l.total then l.perGroup
                                             else if l.first + g * l.perGroup < l.total then l.total - l.first - g * l.perGroup else 0
  {
  }

  function Sum(s: seq<nat>): nat {
    if s == [] then 0 else Sum(s[..|s| - 1]) + s[|s| - 1]
  }

  lemma {:induction false} SumUpdate(s: seq<nat>, k: nat, x: nat)
    requires k < |s|
    ensures Sum(s[k := x]) == Sum(s) - s[k] + x
  {
    var n := |s| - 1;
    if k == n {
      assert s[k := x][..n] == s[..n];
    } else {
      assert s[k := x][..n] == s[..n][k := x];
      SumUpdate(s[..n], k, x);
    }
  }

  lemma {:induction false} SumZero(s: seq<nat>)
    requires forall k :: 0 <= k < |s| ==> s[k] == 0
    ensures Sum(s) == 0
  {
    if s != [] { SumZero(s[..|s| - 1]); }
  }

  /** Every counter says how many in-range bits are clear, and the superblock holds their sum. */
  ghost predicate Counted(l: Layout, bitmaps: Bitmaps, groupFree: seq<nat>, superFree: nat) {
    && Sized(l, bitmaps) && |groupFree| == l.groups
    && (forall g :: 0 <= g < l.groups ==> groupFree[g] == FreeCount(bitmaps[g], InGroup(l, g)))
    && superFree == Sum(groupFree)
  }

  lemma {:induction false} CountZero(words: seq<bv32>, n: nat)
    requires n <= 32 * |words|
    ensures FreeCount(words, n) == 0 <==> forall i: nat :: i < n ==> Get(words, i)
  {
    hide Get;
    if n > 0 {
      CountZero(words, n - 1);
    }
  }

  /** Marking one bit moves both counters by one. */
  lemma CountOne(l: Layout, bitmaps: Bitmaps, groupFree: seq<nat>, superFree: nat, g: nat, bit: nat, words: seq<bv32>)
    requires Counted(l, bitmaps, groupFree, superFree) && g < l.groups && bit < InGroup(l, g)
    requires Filled(bitmaps[g], words, bit, bit + 1, true) && !Get(bitmaps[g], bit)
    ensures groupFree[g] > 0 && superFree > 0
    ensures Counted(l, bitmaps[g := words], groupFree[g := groupFree[g] - 1], superFree - 1)
  {
    hide Get;
    FreeCountFill(bitmaps[g], words, bit, bit + 1, InGroup(l, g));
    SumUpdate(groupFree, g, groupFree[g] - 1);
  }

  lemma CountBack(l: Layout, bitmaps: Bitmaps, groupFree: seq<nat>, superFree: nat, g: nat, bit: nat, words: seq<bv32>)
    requires Counted(l, bitmaps, groupFree, superFree) && g < l.groups && bit < InGroup(l, g)
    requires Filled(bitmaps[g], words, bit, bit + 1, false) && Get(bitmaps[g], bit)
    ensures Counted(l, bitmaps[g := words], groupFree[g := groupFree[g] + 1], superFree + 1)
  {
    hide Get;
    FreeCountFill(words, bitmaps[g], bit, bit + 1, InGroup(l, g));
    SumUpdate(groupFree, g, groupFree[g] + 1);
  }

  /** Writing one bit of one group changes the state of one item. */
  lemma TakenAfter(l: Layout, bitmaps: Bitmaps, g: nat, bit: nat, words: seq<bv32>, v: bool)
    requires Sized(l, bitmaps) && g < l.groups && bit < InGroup(l, g)
    requires Filled(bitmaps[g], words, bit, bit + 1, v)
    ensures TakenSet(l, bitmaps[g := words]) ==
            if v then TakenSet(l, bitmaps) + {Item(l, g, bit)} else TakenSet(l, bitmaps) - {Item(l, g, bit)}
  {
    hide Get;
    var after := bitmaps[g := words];
    Place(l, g, bit);
    forall x | l.first + l.bias <= x < l.total + l.bias && Known(l, x)
      ensures Taken(l, after, x) == if x == Item(l, g, bit) then v else Taken(l, bitmaps, x)
    {
      Locate(l, x);
    }
  }

  class Items {
    const layout: Layout
    var bitmaps: Bitmaps
    var groupFree: seq<nat>
    var superFree: nat

    /** Counters agree with the bitmaps; item number zero, where it exists, is never free. */
    ghost predicate Valid()
      reads this
    {
      && Counted(layout, bitmaps, groupFree, superFree)
      && (Known(layout, 0) ==> Taken(layout, bitmaps, 0))
    }

    ghost function Used(): set<nat>
      requires Valid()
      reads this
    {
      TakenSet(layout, bitmaps)
    }

    constructor (layout: Layout, bitmaps: Bitmaps, groupFree: seq<nat>, superFree: nat)
      requires Counted(layout, bitmaps, groupFree, superFree)
      requires Known(layout, 0) ==> Taken(layout, bitmaps, 0)
      ensures Valid()
      ensures this.layout == layout && this.bitmaps == bitmaps
      ensures this.groupFree == groupFree && this.superFree == superFree
    {
      this.layout, this.bitmaps, this.groupFree, this.superFree := layout, bitmaps, groupFree, superFree;
    }

    /** Walks the groups in order for the first clear in-range bit. */
    method FindFree() returns (ok: bool, g: nat, bit: nat)
      requires Valid()
      ensures ok ==> FirstFree(layout, bitmaps, g, bit)
      ensures !ok ==> forall h :: 0 <= h < layout.groups ==> FreeCount(bitmaps[h], InGroup(layout, h)) == 0
    {
      hide Get, Known, Taken, InGroup, FreeCount, Sum;
      for i := 0 to layout.groups
        invariant forall h :: 0 <= h < i ==> FreeCount(bitmaps[h], InGroup(layout, h)) == 0
      {
        var count := InGroup(layout, i);
        ghost var free := FreeCount(bitmaps[i], count);
        assert groupFree[i] == free;
        CountZero(bitmaps[i], count);
        if groupFree[i] == 0 || count == 0 {
          assert FreeCount(bitmaps[i], InGroup(layout, i)) == 0;
          continue;
        }
        var words := bitmaps[i];
        var bitmap := new bv32[|words|](k requires 0 <= k < |words| => words[k]);
        assert bitmap[..] == words;
        var found, b := FindFirstClear(bitmap, count);
        assert bitmap[..] == words;
        assert found || free == 0;
        if found {
          return true, i, b;
        }
      }
      return false, 0, 0;
    }

    /**
     * Allocates the lowest-numbered free item: the first group whose counter is positive, and
     * the first clear bit of its bitmap.  Fails exactly when every item is in use.
     */
    method Alloc() returns (ok: bool, v: nat)
      requires Valid()
      modifies this
      ensures Valid()
      ensures ok ==> Known(layout, v) && v != 0 && v !in old(Used()) && Used() == old(Used()) + {v}
      ensures ok ==> AllBelowTaken(layout, old(Used()), v) && forall u: nat :: Known(layout, u) && u < v ==> u in old(Used())
      ensures (ok <==> old(superFree) > 0) && (ok ==> superFree == old(superFree) - 1)
      ensures !ok ==> unchanged(this) && AllBelowTaken(layout, Used(), layout.total + layout.bias)
    {
      hide Get, InGroup, Item;
      var g, bit;
      ok, g, bit := FindFree();
      if !ok {
        AllTaken(layout, bitmaps);
        SumZero(groupFree);
        return false, 0;
      }
      var words := bitmaps[g];
      var bitmap := new bv32[|words|](k requires 0 <= k < |words| => words[k]);
      assert bitmap[..] == words;
      Set(bitmap, bit);
      v := Item(layout, g, bit);
      Marked(g, bit, bitmap[..]);
      bitmaps := bitmaps[g := bitmap[..]];
      groupFree := groupFree[g := groupFree[g] - 1];
      if superFree > 0 {
        superFree := superFree - 1;
      }
    }

    /** What marking the first free bit means for the state. */
    lemma Marked(g: nat, bit: nat, words: seq<bv32>)
      requires Valid() && FirstFree(layout, bitmaps, g, bit) && Filled(bitmaps[g], words, bit, bit + 1, true)
      ensures Known(layout, Item(layout, g, bit)) && Item(layout, g, bit) != 0 && Item(layout, g, bit) !in Used()
      ensures AllBelowTaken(layout, Used(), Item(layout, g, bit))
      ensures groupFree[g] > 0 && superFree > 0
      ensures var after := bitmaps[g := words];
        && Counted(layout, after, groupFree[g := groupFree[g] - 1], superFree - 1)
        && TakenSet(layout, after) == Used() + {Item(layout, g, bit)}
        && (Known(layout, 0) ==> Taken(layout, after, 0))
    {
      hide Get, InGroup, Item;
      CountOne(layout, bitmaps, groupFree, superFree, g, bit, words);
      TakenAfter(layout, bitmaps, g, bit, words, true);
      LeastFree(layout, bitmaps, g, bit);
      Place(layout, g, bit);
      InTakenSet(layout, bitmaps, Item(layout, g, bit));
      if Known(layout, 0) {
        InTakenSet(layout, bitmaps, 0);
        InTakenSet(layout, bitmaps[g := words], 0);
      }
    }

    /**
     * Frees an item.  Numbers outside the layout are refused; an item that is already free
     * is accepted and changes nothing.
     */
    method Free(v: nat) returns (ok: bool)
      requires Valid()
      modifies this
      ensures Valid()
      ensures ok <==> v != 0 && Known(layout, v)
      ensures Used() == if ok then old(Used()) - {v} else old(Used())
      ensures superFree == old(superFree) + if ok && v in old(Used()) then 1 else 0
    {
      hide Get;
      if v == 0 || layout.perGroup == 0 || v < layout.first + layout.bias || v >= layout.total + layout.bias {
        return false;
      }
      var z := v - layout.bias - layout.first;
      var g, bit := z / layout.perGroup, z % layout.perGroup;
      if g >= layout.groups {
        return false;
      }
      ok := true;
      Locate(layout, v);
      InTakenSet(layout, bitmaps, v);
      var words := bitmaps[g];
      var bitmap := new bv32[|words|](k requires 0 <= k < |words| => words[k]);
      assert bitmap[..] == words;
      var used := GetBit(bitmap, bit);
      if !used {
        return;
      }
      Clear(bitmap, bit);
      CountBack(layout, bitmaps, groupFree, superFree, g, bit, bitmap[..]);
      TakenAfter(layout, bitmaps, g, bit, bitmap[..], false);
      ZeroStays(layout, bitmaps, g, bit, bitmap[..]);
      bitmaps := bitmaps[g := bitmap[..]];
      groupFree := groupFree[g := groupFree[g] + 1];
      superFree := superFree + 1;
    }
  }

  lemma InTakenSet(l: Layout, bitmaps: Bitmaps, v: nat)
    requires Sized(l, bitmaps) && Known(l, v)
    ensures v in TakenSet(l, bitmaps) <==> Taken(l, bitmaps, v)
    ensures v in TakenSet(l, bitmaps) <==> (Locate(l, v); Get(bitmaps[GroupOf(l, v)], BitOf(l, v)))
  {
  }

  lemma ZeroStays(l: Layout, bitmaps: Bitmaps, g: nat, bit: nat, words: seq<bv32>)
    requires Sized(l, bitmaps) && g < l.groups && bit < InGroup(l, g) && Item(l, g, bit) != 0
    requires Filled(bitmaps[g], words, bit, bit + 1, false)
    requires Known(l, 0) ==> Taken(l, bitmaps, 0)
    ensures Known(l, 0) ==> Taken(l, bitmaps[g := words], 0)
  {
    hide Get;
    TakenAfter(l, bitmaps, g, bit, words, false);
    if Known(l, 0) {
      InTakenSet(l, bitmaps, 0);
      InTakenSet(l, bitmaps[g := words], 0);
    }
  }

  /** Bit `bit` of group `g` is the first clear in-range bit of the volume. */
  ghost predicate FirstFree(l: Layout, bitmaps: Bitmaps, g: nat, bit: nat)
    requires Sized(l, bitmaps)
  {
    && g < l.groups && bit < InGroup(l, g) <= l.perGroup && !Get(bitmaps[g], bit)
    && (forall h :: 0 <= h < g ==> FreeCount(bitmaps[h], InGroup(l, h)) == 0)
    && (forall i: nat :: i < bit ==> Get(bitmaps[g], i))
  }

  ghost predicate AllBelowTaken(l: Layout, used: set<nat>, limit: nat) {
    forall u: nat :: Known(l, u) && u < limit ==> u in used
  }

  lemma LeastFree(l: Layout, bitmaps: Bitmaps, g: nat, bit: nat)
    requires Sized(l, bitmaps) && FirstFree(l, bitmaps, g, bit)
    ensures AllBelowTaken(l, TakenSet(l, bitmaps), Item(l, g, bit))
  {
    hide Get;
    forall u: nat | Known(l, u) && u < Item(l, g, bit)
      ensures u in TakenSet(l, bitmaps)
    {
      EarlierTaken(l, bitmaps, g, bit, u);
    }
  }

  lemma EarlierTaken(l: Layout, bitmaps: Bitmaps, g: nat, bit: nat, u: nat)
    requires Sized(l, bitmaps) && FirstFree(l, bitmaps, g, bit)
    requires Known(l, u) && u < Item(l, g, bit)
    ensures u in TakenSet(l, bitmaps)
  {
    hide Get, InGroup;
    Locate(l, u);
    InTakenSet(l, bitmaps, u);
    var h, b := GroupOf(l, u), BitOf(l, u);
    if h < g {
      CountZero(bitmaps[h], InGroup(l, h));
    } else if h > g {
      GroupOrder(l, g, bit, h, b);
      assert false;
    }
  }

  lemma AllTaken(l: Layout, bitmaps: Bitmaps)
    requires Sized(l, bitmaps)
    requires forall h :: 0 <= h < l.groups ==> FreeCount(bitmaps[h], InGroup(l, h)) == 0
    ensures AllBelowTaken(l, TakenSet(l, bitmaps), l.total + l.bias)
  {
    hide Get, InGroup;
    forall u: nat | Known(l, u)
      ensures u in TakenSet(l, bitmaps)
    {
      Locate(l, u);
      InTakenSet(l, bitmaps, u);
      CountZero(bitmaps[GroupOf(l, u)], InGroup(l, GroupOf(l, u)));
    }
  }
}
