/**
 * What a volume is to its users: plain files, each a tape of bytes of which the first `size` show,
 * and directories, each a map from names to inodes.
 */
module VolumeMeaning {
  import opened Bytes
  import DirRecords
  import Directory

  type Name = DirRecords.Name
  type Listing = Directory.Listing
  type Tape = imap<nat, byte>

  /** What an inode stands for.  Bytes stored from `size` on do not show. */
  datatype Thing = Plain(size: nat, stored: Tape) | Folder(names: Listing)

  ghost function At(t: Tape, x: nat): byte {
    if x in t then t[x] else 0
  }

  ghost function Blank(): Tape {
    CutFrom(imap[], 0)
  }

  ghost function Overlay(t: Tape, offset: nat, data: seq<byte>): Tape {
    imap x: nat | true :: if offset <= x < offset + |data| then data[x - offset] else At(t, x)
  }

  ghost function CutFrom(t: Tape, len: nat): Tape {
    imap x: nat | true :: if x < len then At(t, x) else 0
  }

  datatype Op =
    | Create(ino: nat)
    | MakeFolder(self: word, parent: word)
    | Write(ino: nat, offset: nat, data: seq<byte>)
    | SetSize(ino: nat, len: nat)
    | Reclaim(ino: nat)
    | Enter(ino: nat, name: Name, target: word, kind: byte)
    | Replace(ino: nat, name: Name, target: word, kind: byte)
    | Remove(ino: nat, name: Name)

  /** A call succeeds, is refused, or runs out of room; a write may by then have stored some bytes. */
  datatype Answer = Done | Refused | NoRoom(stored: nat)

  ghost function Max(a: nat, b: nat): nat {
    if a < b then b else a
  }

  /** A file after a write, complete or not. */
  ghost function Rewritten(t: Thing, offset: nat, data: seq<byte>, a: Answer): Thing
    requires t.Plain?
  {
    if data == [] || a.Refused? then t
    else if a.Done? then Plain(Max(t.size, offset + |data|), Overlay(t.stored, offset, data))
    else if a.stored <= |data| then Plain(t.size, Overlay(t.stored, offset, data[..a.stored]))
    else t
  }

  /** A file after its size is set: what is cut off is forgotten, what is added is whatever was stored there. */
  ghost function Resized(t: Thing, len: nat): Thing
    requires t.Plain?
  {
    Plain(len, if len < t.size then CutFrom(t.stored, len) else t.stored)
  }

  /** The volume after one call. */
  ghost function Perform(things: map<nat, Thing>, op: Op, a: Answer): map<nat, Thing> {
    match op
    case Create(ino) => if a.Done? then things[ino := Plain(0, Blank())] else things
    case MakeFolder(self, parent) => if a.Done? then things[self as int := Folder(Directory.Dots(self, parent))] else things
    case Write(ino, offset, data) =>
      if ino in things && things[ino].Plain? then things[ino := Rewritten(things[ino], offset, data, a)] else things
    case SetSize(ino, len) =>
      if a.Done? && ino in things && things[ino].Plain? then things[ino := Resized(things[ino], len)] else things
    case Reclaim(ino) => if a.Done? then things - {ino} else things
    case Enter(ino, name, target, kind) =>
      if a.Done? && ino in things && things[ino].Folder?
      then things[ino := Folder(things[ino].names[name := DirRecords.Entry(target, kind)])] else things
    case Replace(ino, name, target, kind) =>
      if a.Done? && ino in things && things[ino].Folder?
      then things[ino := Folder(things[ino].names[name := DirRecords.Entry(target, kind)])] else things
    case Remove(ino, name) =>
      if a.Done? && ino in things && things[ino].Folder? then things[ino := Folder(things[ino].names - {name})] else things
  }

  /** A refused call changes nothing. */
  lemma RefusedNothing(things: map<nat, Thing>, op: Op)
    ensures Perform(things, op, Refused) == things
  {
    if op.Write? && op.ino in things {
      assert things[op.ino := things[op.ino]] == things;
    }
  }

  // ----- files as plain sequences of bytes

  function PadTo(s: seq<byte>, n: nat): seq<byte> {
    if |s| < n then s + Zeros(n - |s|) else s
  }

  /** `data` written at `offset`: a gap before it reads as zeros. */
  function Patch(s: seq<byte>, offset: nat, data: seq<byte>): seq<byte> {
    var p := PadTo(s, offset + |data|);
    p[..offset] + data + p[offset + |data|..]
  }

  function Resize(s: seq<byte>, len: nat): seq<byte> {
    if len <= |s| then s[..len] else PadTo(s, len)
  }

  /** The bytes of a file. */
  ghost function Shown(t: Thing): (s: seq<byte>)
    requires t.Plain?
    ensures |s| == t.size && forall x :: 0 <= x < t.size ==> s[x] == At(t.stored, x)
  {
    seq(t.size, x requires 0 <= x < t.size => At(t.stored, x))
  }

  /** After a complete write the file is as long as it was or as the write reaches, and only the bytes written changed. */
  lemma WrittenByte(t: Thing, offset: nat, data: seq<byte>, x: nat)
    requires t.Plain? && data != []
    ensures var n := Rewritten(t, offset, data, Done);
            && n.Plain? && n.size >= t.size && n.size >= offset + |data| && (n.size == t.size || n.size == offset + |data|)
            && At(n.stored, x) == if offset <= x < offset + |data| then data[x - offset] else At(t.stored, x)
  {
  }

  /** Nothing but zeros is stored behind the end. */
  ghost predicate Tidy(t: Thing) {
    t.Plain? ==> forall x: nat :: t.size <= x ==> At(t.stored, x) == 0
  }

  /** A complete write patches the bytes of a tidy file and leaves it tidy. */
  lemma WriteShows(t: Thing, offset: nat, data: seq<byte>)
    requires t.Plain? && Tidy(t) && data != []
    ensures var n := Rewritten(t, offset, data, Done);
            Shown(n) == Patch(Shown(t), offset, data) && Tidy(n)
  {
    var n := Rewritten(t, offset, data, Done);
    var a, b := Shown(n), Patch(Shown(t), offset, data);
    forall x: nat | x < n.size
      ensures a[x] == b[x]
    {
    }
    assert a == b;
  }

  lemma PatchedInside(s: seq<byte>, offset: nat, data: seq<byte>, x: nat)
    requires x < |s|
    ensures var p := Resize(Patch(s, offset, data), |s|);
            |p| == |s| && p[x] == if offset <= x < offset + |data| then data[x - offset] else s[x]
  {
  }

  /** Of the first `k` bytes of a write at `offset`, one that is not zero lies behind the end. */
  ghost predicate Rubbish(t: Thing, offset: nat, data: seq<byte>, k: nat)
    requires t.Plain? && k <= |data|
  {
    exists j :: 0 <= j < k && t.size <= offset + j && data[j] != 0
  }

  lemma FailedByte(t: Thing, offset: nat, data: seq<byte>, k: nat, x: nat)
    requires t.Plain? && k <= |data| && data != []
    ensures var n := Rewritten(t, offset, data, NoRoom(k));
            n.Plain? && n.size == t.size && At(n.stored, x) == if offset <= x < offset + k then data[x - offset] else At(t.stored, x)
  {
  }

  lemma SameLength(s: seq<byte>, offset: nat, data: seq<byte>)
    ensures |Resize(Patch(s, offset, data), |s|)| == |s|
  {
  }

  /** A write that runs out of room keeps the size and patches what it could of the bytes that show. */
  lemma FailedWriteShows(t: Thing, offset: nat, data: seq<byte>, k: nat)
    requires t.Plain? && k <= |data| && data != []
    ensures var n := Rewritten(t, offset, data, NoRoom(k));
            n.Plain? && n.size == t.size && Shown(n) == Resize(Patch(Shown(t), offset, data[..k]), t.size)
  {
    hide Patch, Resize, Rewritten, Shown, At;
    var n := Rewritten(t, offset, data, NoRoom(k));
    FailedByte(t, offset, data, k, 0);
    SameLength(Shown(t), offset, data[..k]);
    var a, b := Shown(n), Resize(Patch(Shown(t), offset, data[..k]), t.size);
    forall x: nat | x < t.size
      ensures a[x] == b[x]
    {
      FailedByte(t, offset, data, k, x);
      PatchedInside(Shown(t), offset, data[..k], x);
    }
    assert a == b;
  }

  /** It leaves the file tidy exactly when the bytes it stored behind the end are zeros. */
  lemma FailedWriteTidy(t: Thing, offset: nat, data: seq<byte>, k: nat)
    requires t.Plain? && k <= |data| && data != [] && Tidy(t)
    ensures Tidy(Rewritten(t, offset, data, NoRoom(k))) <==> !Rubbish(t, offset, data, k)
  {
    var n := Rewritten(t, offset, data, NoRoom(k));
    forall x: nat | t.size <= x
      ensures At(n.stored, x) == if offset <= x < offset + k then data[x - offset] else 0
    {
    }
    if Rubbish(t, offset, data, k) {
      var j :| 0 <= j < k && t.size <= offset + j && data[j] != 0;
      assert At(n.stored, offset + j) == data[j];
    }
  }

  /** Setting the size always leaves a tidy file behind when it shrinks. */
  lemma ShrinkShows(t: Thing, len: nat)
    requires t.Plain? && len < t.size
    ensures Shown(Resized(t, len)) == Resize(Shown(t), len) && Tidy(Resized(t, len))
  {
  }

  /** Growing appends zeros, to every length, exactly when the file is tidy. */
  lemma GrowShows(t: Thing)
    requires t.Plain?
    ensures (forall len: nat :: t.size <= len ==> Shown(Resized(t, len)) == Resize(Shown(t), len)) <==> Tidy(t)
  {
    if Tidy(t) {
      forall len: nat | t.size <= len
        ensures Shown(Resized(t, len)) == Resize(Shown(t), len)
      {
        assert Shown(Resized(t, len)) == Resize(Shown(t), len);
      }
    } else {
      var x: nat :| t.size <= x && At(t.stored, x) != 0;
      assert Shown(Resized(t, x + 1))[x] != Resize(Shown(t), x + 1)[x];
    }
  }

  lemma GrowTidy(t: Thing, len: nat)
    requires t.Plain? && Tidy(t) && t.size <= len
    ensures Tidy(Resized(t, len)) && Shown(Resized(t, len)) == Resize(Shown(t), len)
  {
    GrowShows(t);
  }

  // ----- whole volumes

  ghost predicate AllTidy(things: map<nat, Thing>) {
    forall i :: i in things ==> Tidy(things[i])
  }

  /** The bytes of all plain files. */
  ghost function AllShown(things: map<nat, Thing>): map<nat, seq<byte>> {
    map i | i in things && things[i].Plain? :: Shown(things[i])
  }

  /** What a call does to plain sequences of bytes. */
  function Apply(files: map<nat, seq<byte>>, op: Op, a: Answer): map<nat, seq<byte>> {
    match op
    case Create(ino) => if a.Done? then files[ino := []] else files
    case Write(ino, offset, data) =>
      if ino !in files || data == [] || a.Refused? then files
      else if a.Done? then files[ino := Patch(files[ino], offset, data)]
      else if a.stored <= |data| then files[ino := Resize(Patch(files[ino], offset, data[..a.stored]), |files[ino]|)]
      else files
    case SetSize(ino, len) => if a.Done? && ino in files then files[ino := Resize(files[ino], len)] else files
    case Reclaim(ino) => if a.Done? then files - {ino} else files
    case _ => files
  }

  /** The call is a write that stores something behind the end of a file and fails. */
  ghost predicate LeavesRubbish(things: map<nat, Thing>, op: Op, a: Answer) {
    && op.Write? && op.ino in things && things[op.ino].Plain? && a.NoRoom? && a.stored <= |op.data|
    && Rubbish(things[op.ino], op.offset, op.data, a.stored)
  }

  /** A new file or directory takes a free inode number. */
  ghost predicate Fresh(things: map<nat, Thing>, op: Op, a: Answer) {
    && (op.Create? && a.Done? ==> op.ino !in things)
    && (op.MakeFolder? && a.Done? ==> op.self as int !in things)
  }

  lemma OneThing(things: map<nat, Thing>, ino: nat, n: Thing)
    requires AllTidy(things)
    ensures AllTidy(things[ino := n]) <==> Tidy(n)
    ensures n.Plain? ==> AllShown(things[ino := n]) == AllShown(things)[ino := Shown(n)]
    ensures n.Folder? && (ino in things ==> things[ino].Folder?) ==> AllShown(things[ino := n]) == AllShown(things)
  {
    hide Tidy, Shown;
    if AllTidy(things[ino := n]) { assert Tidy(things[ino := n][ino]); }
  }

  /** On tidy volumes a call is what it is on sequences of bytes; it leaves them tidy unless it leaves rubbish. */
  lemma PerformShows(things: map<nat, Thing>, op: Op, a: Answer)
    requires AllTidy(things) && Fresh(things, op, a)
    ensures AllShown(Perform(things, op, a)) == Apply(AllShown(things), op, a)
    ensures AllTidy(Perform(things, op, a)) <==> !LeavesRubbish(things, op, a)
  {
    hide Rewritten, Resized, Patch, Resize, Shown, Tidy, Rubbish, Directory.Dots, Blank, AllTidy, AllShown;
    match op {
      case Write(ino, offset, data) =>
        WriteCase(things, op, a);
      case SetSize(ino, len) =>
        ShownKeys(things, ino);
        if ino in things && things[ino].Plain? {
          TidyThing(things, ino);
          ResizePart(things[ino], len);
          OneThing(things, ino, Resized(things[ino], len));
        }
      case Create(ino) =>
        NewIsTidy();
        OneThing(things, ino, Plain(0, Blank()));
      case MakeFolder(self, parent) =>
        if a.Done? { FolderCase(things, self as int, Directory.Dots(self, parent)); }
      case Enter(ino, name, target, kind) =>
        if ino in things && things[ino].Folder? { FolderCase(things, ino, things[ino].names[name := DirRecords.Entry(target, kind)]); }
      case Replace(ino, name, target, kind) =>
        if ino in things && things[ino].Folder? { FolderCase(things, ino, things[ino].names[name := DirRecords.Entry(target, kind)]); }
      case Remove(ino, name) =>
        if ino in things && things[ino].Folder? { FolderCase(things, ino, things[ino].names - {name}); }
      case Reclaim(ino) =>
        GoneCase(things, ino);
    }
  }

  lemma ShownKeys(things: map<nat, Thing>, ino: nat)
    ensures ino in AllShown(things) <==> ino in things && things[ino].Plain?
    ensures ino in things && things[ino].Plain? ==> AllShown(things)[ino] == Shown(things[ino]) && |Shown(things[ino])| == things[ino].size
  {
  }

  lemma GoneCase(things: map<nat, Thing>, ino: nat)
    requires AllTidy(things)
    ensures AllTidy(things - {ino}) && AllShown(things - {ino}) == AllShown(things) - {ino}
  {
    hide Tidy, Shown;
  }

  lemma FolderCase(things: map<nat, Thing>, ino: nat, names: Listing)
    requires AllTidy(things) && (ino in things ==> things[ino].Folder?)
    ensures AllTidy(things[ino := Folder(names)]) && AllShown(things[ino := Folder(names)]) == AllShown(things)
  {
    hide AllTidy, AllShown;
    OneThing(things, ino, Folder(names));
  }

  lemma WriteCase(things: map<nat, Thing>, op: Op, a: Answer)
    requires AllTidy(things) && op.Write?
    ensures AllShown(Perform(things, op, a)) == Apply(AllShown(things), op, a)
    ensures AllTidy(Perform(things, op, a)) <==> !LeavesRubbish(things, op, a)
  {
    hide Rewritten, Patch, Resize, Shown, Tidy, Rubbish, AllTidy, AllShown;
    ShownKeys(things, op.ino);
    if op.ino in things && things[op.ino].Plain? {
      TidyThing(things, op.ino);
      WritePart(things[op.ino], op.offset, op.data, a);
      OneThing(things, op.ino, Rewritten(things[op.ino], op.offset, op.data, a));
      assert op.ino in AllShown(things) ==> AllShown(things)[op.ino := AllShown(things)[op.ino]] == AllShown(things);
    }
  }

  lemma TidyThing(things: map<nat, Thing>, ino: nat)
    requires AllTidy(things) && ino in things
    ensures Tidy(things[ino])
  {
  }

  lemma WritePart(t: Thing, offset: nat, data: seq<byte>, a: Answer)
    requires t.Plain? && Tidy(t)
    ensures var n := Rewritten(t, offset, data, a);
            && n.Plain?
            && Shown(n) == (if data == [] || a.Refused? then Shown(t)
                            else if a.Done? then Patch(Shown(t), offset, data)
                            else if a.stored <= |data| then Resize(Patch(Shown(t), offset, data[..a.stored]), |Shown(t)|)
                            else Shown(t))
            && (Tidy(n) <==> !(a.NoRoom? && a.stored <= |data| && Rubbish(t, offset, data, a.stored)))
  {
    hide Tidy, Patch, Resize, Overlay;
    if data != [] && a.Done? {
      WriteShows(t, offset, data);
    } else if data != [] && a.NoRoom? && a.stored <= |data| {
      FailedWriteShows(t, offset, data, a.stored);
      FailedWriteTidy(t, offset, data, a.stored);
    }
  }

  lemma ResizePart(t: Thing, len: nat)
    requires t.Plain? && Tidy(t)
    ensures Resized(t, len).Plain? && Shown(Resized(t, len)) == Resize(Shown(t), len) && Tidy(Resized(t, len))
  {
    if len < t.size { ShrinkShows(t, len); } else { GrowTidy(t, len); }
  }

  lemma NewIsTidy()
    ensures Tidy(Plain(0, Blank())) && Shown(Plain(0, Blank())) == []
  {
  }
}
