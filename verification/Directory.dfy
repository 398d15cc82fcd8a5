/** The directory: a fixed table of 20-byte entries, each a use flag, a header sector and a name of nine
  characters that need not be terminated. */
module Directories {
  import opened Bytes
  import opened FileHeaders
  import opened OpenFiles

  const FILE_NAME_MAX_LEN: nat := 9
  const ENTRY_SIZE: nat := 20

  /** A C string, without its terminator. */
  type CString = s: seq<byte> | 0 !in s

  /** An entry is the memory of the C structure: inUse at offset 0, sector at 4, name[10] at 8, padding
      elsewhere. */
  type DirectoryEntry = e: seq<byte> | |e| == 20 witness seq<byte>(20, _ => 0)

  predicate InUse(e: DirectoryEntry) {
    e[0] != 0
  }

  function SectorOf(e: DirectoryEntry): int32 {
    ToInt(DecodeWord(e[4..8]))
  }

  /** The characters of a buffer before its first terminator. */
  function Text(b: seq<byte>): (t: seq<byte>)
    ensures |t| <= |b|
  {
    if b == [] || b[0] == 0 then [] else [b[0]] + Text(b[1..])
  }

  /** What identifies a file: at most nine characters of its name. */
  function EntryKey(e: DirectoryEntry): seq<byte> {
    Text(e[8..17])
  }

  function NameKey(name: CString): seq<byte> {
    if |name| <= FILE_NAME_MAX_LEN then name else name[..FILE_NAME_MAX_LEN]
  }

  function CharAt(s: CString, i: nat): byte {
    if i < |s| then s[i] else 0
  }

  /** strncmp(a, s, n) == 0, from character i on. */
  predicate SameChars(a: seq<byte>, s: CString, i: nat, n: nat)
    requires i <= n <= |a|
    decreases n - i
  {
    i == n || (a[i] == CharAt(s, i) && (a[i] == 0 || SameChars(a, s, i + 1, n)))
  }

  /** strncpy pads with terminators up to the length, and writes none when the name fills it. */
  function PaddedName(s: CString): (b: seq<byte>)
    ensures |b| == FILE_NAME_MAX_LEN
  {
    seq(FILE_NAME_MAX_LEN, i requires 0 <= i < FILE_NAME_MAX_LEN => CharAt(s, i))
  }

  /** The characters of `s` from `i` to `n`, or to its end. */
  function Upto(s: seq<byte>, i: nat, n: nat): seq<byte>
    requires i <= n && i <= |s|
  {
    s[i..if |s| <= n then |s| else n]
  }

  lemma {:induction false} SameCharsIsSameText(a: seq<byte>, s: CString, i: nat, n: nat)
    requires i <= n <= |a| && i <= |s|
    ensures SameChars(a, s, i, n) <==> Text(a[i..n]) == Upto(s, i, n)
    decreases n - i
  {
    if i < n {
      var b := a[i..n];
      assert b[1..] == a[i + 1..n] && b[0] == a[i];
      if i < |s| {
        SameCharsIsSameText(a, s, i + 1, n);
        assert s[i] in s;
        var u, t := Upto(s, i, n), Text(b);
        assert u == [s[i]] + Upto(s, i + 1, n) && u[1..] == Upto(s, i + 1, n);
        if a[i] == s[i] {
          assert t == [s[i]] + Text(b[1..]) && t[1..] == Text(b[1..]);
        } else {
          assert t == [] || t[0] != u[0];
        }
      } else {
        assert Upto(s, i, n) == [];
      }
    } else {
      assert Upto(s, i, n) == [];
    }
  }

  /** The source's name comparison decides equality of keys. */
  lemma NameMatchesIffSameKey(e: DirectoryEntry, name: CString)
    ensures SameChars(e[8..18], name, 0, FILE_NAME_MAX_LEN) <==> EntryKey(e) == NameKey(name)
  {
    SameCharsIsSameText(e[8..18], name, 0, FILE_NAME_MAX_LEN);
    assert Upto(name, 0, FILE_NAME_MAX_LEN) == NameKey(name);
    assert e[8..18][0..FILE_NAME_MAX_LEN] == e[8..17];
  }

  lemma {:induction false} TextOfPadded(b: seq<byte>, s: CString, i: nat)
    requires |b| == FILE_NAME_MAX_LEN && i <= FILE_NAME_MAX_LEN && i <= |s|
    requires forall j :: 0 <= j < |b| ==> b[j] == CharAt(s, j)
    ensures Text(b[i..]) == Upto(s, i, FILE_NAME_MAX_LEN)
    decreases FILE_NAME_MAX_LEN - i
  {
    var rest := b[i..];
    if i < FILE_NAME_MAX_LEN && i < |s| {
      assert s[i] in s;
      assert rest[1..] == b[i + 1..] && rest[0] == s[i];
      TextOfPadded(b, s, i + 1);
      assert Upto(s, i, FILE_NAME_MAX_LEN) == [s[i]] + Upto(s, i + 1, FILE_NAME_MAX_LEN);
    } else {
      assert Upto(s, i, FILE_NAME_MAX_LEN) == [];
      assert rest == [] || rest[0] == CharAt(s, i);
    }
  }

  /** The entry that Add stores. */
  function Added(e: DirectoryEntry, name: CString, sector: int32): DirectoryEntry {
    Splice(Splice(Splice(e, 0, [1]), 4, EncodeWord(ToWord(sector))), 8, PaddedName(name))
  }

  lemma AddedEntry(e: DirectoryEntry, name: CString, sector: int32)
    ensures var e' := Added(e, name, sector);
            InUse(e') && SectorOf(e') == sector && EntryKey(e') == NameKey(name)
  {
    var e' := Added(e, name, sector);
    assert e'[4..8] == EncodeWord(ToWord(sector));
    DecodeEncodeWord(ToWord(sector));
    assert e'[8..17] == PaddedName(name);
    TextOfPadded(PaddedName(name), name, 0);
    assert PaddedName(name)[0..] == PaddedName(name);
    assert Upto(name, 0, FILE_NAME_MAX_LEN) == NameKey(name);
  }

  /** Where it has what: the flag, the sector, and the name up to its end or nine characters. */
  lemma EntryLayout(e: DirectoryEntry, name: CString, sector: int32, j: nat)
    requires j < FILE_NAME_MAX_LEN
    ensures var e' := Added(e, name, sector);
            && e'[0] == 1 && ToInt(DecodeWord(e'[4..8])) == sector
            && e'[8 + j] == (if j < |name| then name[j] else 0)
            && Dropped(e') == e'[0 := 0]
  {
    AddedEntry(e, name, sector);
  }

  function Dropped(e: DirectoryEntry): (e': DirectoryEntry)
    ensures !InUse(e')
  {
    Splice(e, 0, [0])
  }

  /** The first slot from `i` on that is in use under `key`, or -1. */
  function IndexOf(t: seq<DirectoryEntry>, key: seq<byte>, i: nat): (r: int)
    requires i <= |t|
    ensures r == -1 || (i <= r < |t| && InUse(t[r]) && EntryKey(t[r]) == key)
    ensures forall j :: i <= j < (if r == -1 then |t| else r) ==> !(InUse(t[j]) && EntryKey(t[j]) == key)
    decreases |t| - i
  {
    if i == |t| then -1
    else if InUse(t[i]) && EntryKey(t[i]) == key then i
    else IndexOf(t, key, i + 1)
  }

  /** The first slot from `i` on that is not in use, or -1. */
  function FreeSlot(t: seq<DirectoryEntry>, i: nat): (r: int)
    requires i <= |t|
    ensures r == -1 || (i <= r < |t| && !InUse(t[r]))
    ensures forall j :: i <= j < (if r == -1 then |t| else r) ==> InUse(t[j])
    decreases |t| - i
  {
    if i == |t| then -1 else if !InUse(t[i]) then i else FreeSlot(t, i + 1)
  }

  lemma {:induction false} IndexOfIs(t: seq<DirectoryEntry>, key: seq<byte>, i: nat, k: nat)
    requires i <= k <= |t|
    requires forall j :: i <= j < k ==> !(InUse(t[j]) && EntryKey(t[j]) == key)
    ensures IndexOf(t, key, i) == IndexOf(t, key, k)
    decreases k - i
  {
    if i < k {
      IndexOfIs(t, key, i + 1, k);
    }
  }

  lemma {:induction false} FreeSlotIs(t: seq<DirectoryEntry>, i: nat, k: nat)
    requires i <= k <= |t|
    requires forall j :: i <= j < k ==> InUse(t[j])
    ensures FreeSlot(t, i) == FreeSlot(t, k)
    decreases k - i
  {
    if i < k {
      FreeSlotIs(t, i + 1, k);
    }
  }

  /** The table as the bytes of the directory file. */
  function Flatten(t: seq<DirectoryEntry>): (b: seq<byte>)
    ensures |b| == ENTRY_SIZE * |t|
  {
    if t == [] then [] else t[0] + Flatten(t[1..])
  }

  function Unflatten(b: seq<byte>): (t: seq<DirectoryEntry>)
    requires |b| % ENTRY_SIZE == 0
    ensures ENTRY_SIZE * |t| == |b|
  {
    if b == [] then [] else [b[..ENTRY_SIZE]] + Unflatten(b[ENTRY_SIZE..])
  }

  lemma {:induction false} UnflattenFlatten(t: seq<DirectoryEntry>)
    ensures Unflatten(Flatten(t)) == t
  {
    if t != [] {
      var b := Flatten(t);
      assert b[..ENTRY_SIZE] == t[0] && b[ENTRY_SIZE..] == Flatten(t[1..]);
      UnflattenFlatten(t[1..]);
    }
  }

  lemma {:induction false} UnflattenAt(b: seq<byte>, i: nat)
    requires |b| % ENTRY_SIZE == 0 && (i + 1) * ENTRY_SIZE <= |b|
    ensures Unflatten(b)[i] == b[i * ENTRY_SIZE..(i + 1) * ENTRY_SIZE]
  {
    if i > 0 {
      UnflattenAt(b[ENTRY_SIZE..], i - 1);
    }
  }

  class Directory {
    const table: array<DirectoryEntry>

    constructor (size: nat)
      ensures fresh(table) && table.Length == size
      ensures forall i :: 0 <= i < size ==> !InUse(table[i])
    {
      table := new DirectoryEntry[size];
      new;
      for i := 0 to size
        invariant forall j :: 0 <= j < i ==> !InUse(table[j])
      {
        table[i] := Dropped(table[i]);
      }
    }

    method FetchFrom(file: OpenFile)
      requires file.Valid() && file.hdr.dataSectors as object != table
      requires |file.Bytes()| == ENTRY_SIZE * table.Length
      modifies table
      ensures table[..] == Unflatten(file.Bytes())
    {
      var buf := new byte[ENTRY_SIZE * table.Length];
      var n := file.ReadAt(buf, 0, ENTRY_SIZE * table.Length, 0);
      assert buf[..] == file.Bytes();
      FillTable(buf);
    }

    /** The table's entries, one after another, out of the bytes read. */
    method FillTable(buf: array<byte>)
      requires buf.Length == ENTRY_SIZE * table.Length
      modifies table
      ensures table[..] == Unflatten(buf[..])
    {
      ghost var content := buf[..];
      for i := 0 to table.Length
        invariant table[..i] == Unflatten(content)[..i]
      {
        UnflattenAt(content, i);
        assert buf[i * ENTRY_SIZE..(i + 1) * ENTRY_SIZE] == content[i * ENTRY_SIZE..(i + 1) * ENTRY_SIZE];
        table[i] := buf[i * ENTRY_SIZE..(i + 1) * ENTRY_SIZE];
      }
      assert table[..table.Length] == table[..];
    }

    method WriteBack(file: OpenFile)
      requires file.Valid() && |file.Bytes()| == ENTRY_SIZE * table.Length
      modifies file.disk
      ensures WroteAt(old(file.disk.sectors), file.disk.sectors, file.hdr.Value(), 0, Flatten(table[..]))
    {
      var bytes := Flatten(table[..]);
      var _ := file.WriteAt(bytes, 0);
    }

    method FindIndex(name: CString) returns (index: int)
      ensures index == IndexOf(table[..], NameKey(name), 0)
    {
      for i := 0 to table.Length
        invariant IndexOf(table[..], NameKey(name), 0) == IndexOf(table[..], NameKey(name), i)
      {
        NameMatchesIffSameKey(table[i], name);
        if InUse(table[i]) && SameChars(table[i][8..18], name, 0, FILE_NAME_MAX_LEN) {
          return i;
        }
      }
      return -1;
    }

    method Find(name: CString) returns (sector: int)
      ensures var i := IndexOf(table[..], NameKey(name), 0);
              sector == if i == -1 then -1 else SectorOf(table[i])
    {
      var i := FindIndex(name);
      if i != -1 {
        return SectorOf(table[i]);
      }
      return -1;
    }

    method Add(name: CString, newSector: int32) returns (ok: bool)
      modifies table
      ensures var t := old(table[..]);
              var slot := FreeSlot(t, 0);
              && (ok <==> IndexOf(t, NameKey(name), 0) == -1 && slot != -1)
              && table[..] == if ok then t[slot := Added(t[slot], name, newSector)] else t
    {
      var present := FindIndex(name);
      if present != -1 {
        return false;
      }
      for i := 0 to table.Length
        invariant table[..] == old(table[..])
        invariant FreeSlot(table[..], 0) == FreeSlot(table[..], i)
      {
        if !InUse(table[i]) {
          table[i] := Added(table[i], name, newSector);
          return true;
        }
      }
      return false;
    }

    method Remove(name: CString) returns (ok: bool)
      modifies table
      ensures var t := old(table[..]);
              var i := IndexOf(t, NameKey(name), 0);
              && (ok <==> i != -1)
              && table[..] == if ok then t[i := Dropped(t[i])] else t
    {
      var i := FindIndex(name);
      if i == -1 {
        return false;
      }
      table[i] := Dropped(table[i]);
      return true;
    }
  }
}
