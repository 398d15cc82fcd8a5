/** How full a volume is, in terms of the files it means: every file takes a sector for its header and as many as
  its bytes need, and nothing else is taken. */
module Capacity {
  import opened Bytes
  import opened Counting
  import opened Sectors
  import opened BitMaps
  import opened FileHeaders
  import opened Directories
  import opened Volumes

  /** The sectors that files like these take, by file and number; number 0 is the header. */
  function Taken(m: map<seq<byte>, seq<byte>>): set<(seq<byte>, nat)> {
    set key, j: nat | key in m && 0 <= j <= DivRoundUp(|m[key]|, SECTOR_SIZE) :: (key, j)
  }

  const ROOM: nat := NUM_SECTORS - SYSTEM_SECTORS

  /** Whether a file of this size can be added to the files of `m`. */
  predicate Fits(m: map<seq<byte>, seq<byte>>, key: seq<byte>, size: nat) {
    key !in m && |m| < NUM_DIR_ENTRIES && |Taken(m)| + 1 + DivRoundUp(size, SECTOR_SIZE) <= ROOM
  }

  // ---- Marked sectors ----

  function Marked(bits: seq<bool>, from: nat): set<int> {
    set x | from <= x < |bits| && bits[x]
  }

  lemma {:induction false} ClearAndMarked(bits: seq<bool>)
    ensures CountClear(bits) + |Marked(bits, 0)| == |bits|
  {
    if bits != [] {
      var n := |bits| - 1;
      ClearAndMarked(bits[..n]);
      assert Marked(bits, 0) == Marked(bits[..n], 0) + if bits[n] then {n} else {};
    }
  }

  lemma {:induction false} MarkedFrom(bits: seq<bool>, from: nat)
    requires from <= |bits| && forall x :: 0 <= x < from ==> bits[x]
    ensures |Marked(bits, 0)| == from + |Marked(bits, from)|
  {
    if from > 0 {
      MarkedFrom(bits, from - 1);
      assert Marked(bits, from - 1) == Marked(bits, from) + {from - 1};
    }
  }

  // ---- The sectors of the files ----

  /** Where the sector of that number of that file lies. */
  function SectorAt(d: Store, t: seq<DirectoryEntry>, place: (seq<byte>, nat)): int
    requires FilesOk(d, t)
  {
    var i := IndexOf(t, place.0, 0);
    if i == -1 then -1
    else
      var h := HeaderAt(d, SectorOf(t[i]));
      if place.1 <= h.numSectors then SectorOfFile(h, SectorOf(t[i]), place.1) else -1
  }

  lemma FileOfKey(d: Store, t: seq<DirectoryEntry>, key: seq<byte>)
    requires FilesOk(d, t) && key in FilesIn(d, t)
    ensures var i := IndexOf(t, key, 0);
            && 0 <= i < |t| && InUse(t[i]) && FileOk(d, SectorOf(t[i]))
            && DivRoundUp(|FilesIn(d, t)[key]|, SECTOR_SIZE) == HeaderAt(d, SectorOf(t[i])).numSectors
  {
    KeyInTable(t, key);
    assert FileOk(d, SectorOf(t[IndexOf(t, key, 0)]));
  }

  lemma PlaceOfFile(d: Store, t: seq<DirectoryEntry>, place: (seq<byte>, nat))
    requires FilesOk(d, t) && place in Taken(FilesIn(d, t))
    ensures var i := IndexOf(t, place.0, 0);
            && 0 <= i < |t| && InUse(t[i]) && FileOk(d, SectorOf(t[i]))
            && place.1 <= HeaderAt(d, SectorOf(t[i])).numSectors && Owns(d, SectorOf(t[i]), SectorAt(d, t, place))
  {
    FileOfKey(d, t, place.0);
    NumberIsOwned(HeaderAt(d, SectorOf(t[IndexOf(t, place.0, 0)])), SectorOf(t[IndexOf(t, place.0, 0)]), place.1);
  }

  lemma PlacesDiffer(d: Store, t: seq<DirectoryEntry>, bits: seq<bool>, p: (seq<byte>, nat), q: (seq<byte>, nat))
    requires Sound(d, t, bits) && p in Taken(FilesIn(d, t)) && q in Taken(FilesIn(d, t))
    requires SectorAt(d, t, p) == SectorAt(d, t, q)
    ensures p == q
  {
    PlaceOfFile(d, t, p);
    PlaceOfFile(d, t, q);
    var i, j, x := IndexOf(t, p.0, 0), IndexOf(t, q.0, 0), SectorAt(d, t, p);
    assert Owns(d, SectorOf(t[i]), x) && Owns(d, SectorOf(t[j]), x);
    assert i == j;
    NumbersDiffer(HeaderAt(d, SectorOf(t[i])), SectorOf(t[i]), p.1, q.1);
  }

  /** One file's sectors: number 0 is `s`, the others follow. */
  function SectorOfFile(h: Header, s: int, j: nat): int
    requires WellFormed(h) && j <= h.numSectors
  {
    if j == 0 then s else h.dataSectors[j - 1]
  }

  lemma NumberIsOwned(h: Header, s: int, j: nat)
    requires WellFormed(h) && j <= h.numSectors
    ensures SectorOfFile(h, s, j) == s || SectorOfFile(h, s, j) in DataOf(h)
  {
    if j > 0 {
      assert DataOf(h)[j - 1] == h.dataSectors[j - 1];
    }
  }

  lemma NumbersDiffer(h: Header, s: int, j: nat, k: nat)
    requires WellFormed(h) && s !in DataOf(h) && j <= h.numSectors && k <= h.numSectors
    requires SectorOfFile(h, s, j) == SectorOfFile(h, s, k)
    ensures j == k
  {
    assert j > 0 ==> DataOf(h)[j - 1] == h.dataSectors[j - 1];
    assert k > 0 ==> DataOf(h)[k - 1] == h.dataSectors[k - 1];
  }

  /** Every sector of a file has a number. */
  lemma NumberOf(h: Header, s: int, x: int) returns (j: nat)
    requires WellFormed(h) && (x == s || x in DataOf(h))
    ensures j <= h.numSectors && SectorOfFile(h, s, j) == x
  {
    j := 0;
    if x != s {
      j :| 0 <= j < |DataOf(h)| && DataOf(h)[j] == x;
      j := j + 1;
    }
  }

  lemma PlaceIsMarked(d: Store, t: seq<DirectoryEntry>, bits: seq<bool>, place: (seq<byte>, nat))
    requires Sound(d, t, bits) && place in Taken(FilesIn(d, t))
    ensures SectorAt(d, t, place) in Marked(bits, SYSTEM_SECTORS)
  {
    PlaceOfFile(d, t, place);
    var s, x := SectorOf(t[IndexOf(t, place.0, 0)]), SectorAt(d, t, place);
    assert Owns(d, s, x) && InSomeFile(d, t, x);
  }

  lemma MarkedIsPlace(d: Store, t: seq<DirectoryEntry>, bits: seq<bool>, x: int)
    requires Sound(d, t, bits) && x in Marked(bits, SYSTEM_SECTORS)
    ensures exists place :: place in Taken(FilesIn(d, t)) && SectorAt(d, t, place) == x
  {
    assert InSomeFile(d, t, x);
    var i :| 0 <= i < |t| && InUse(t[i]) && Owns(d, SectorOf(t[i]), x);
    SlotOfKey(t, i);
    assert FileOk(d, SectorOf(t[i]));
    var j := NumberOf(HeaderAt(d, SectorOf(t[i])), SectorOf(t[i]), x);
    var place := (EntryKey(t[i]), j);
    assert place in Taken(FilesIn(d, t)) && SectorAt(d, t, place) == x;
  }

  lemma MarkedByFiles(d: Store, t: seq<DirectoryEntry>, bits: seq<bool>)
    requires Sound(d, t, bits)
    ensures |Taken(FilesIn(d, t))| == |Marked(bits, SYSTEM_SECTORS)|
  {
    var places, sectors := Taken(FilesIn(d, t)), Marked(bits, SYSTEM_SECTORS);
    forall p | p in places
      ensures SectorAt(d, t, p) in sectors
    {
      PlaceIsMarked(d, t, bits, p);
    }
    forall x | x in sectors
      ensures exists p :: p in places && SectorAt(d, t, p) == x
    {
      MarkedIsPlace(d, t, bits, x);
    }
    forall p, q | p in places && q in places && SectorAt(d, t, p) == SectorAt(d, t, q)
      ensures p == q
    {
      PlacesDiffer(d, t, bits, p, q);
    }
    SameSize(places, sectors, p => SectorAt(d, t, p));
  }

  lemma ClearBesides(d: Store, t: seq<DirectoryEntry>, bits: seq<bool>)
    requires Sound(d, t, bits)
    ensures CountClear(bits) + |Taken(FilesIn(d, t))| == ROOM
  {
    MarkedByFiles(d, t, bits);
    MarkedFrom(bits, SYSTEM_SECTORS);
    ClearAndMarked(bits);
  }

  // ---- Directory slots ----

  function SlotsInUse(t: seq<DirectoryEntry>): seq<bool> {
    seq(|t|, i requires 0 <= i < |t| => InUse(t[i]))
  }

  lemma SlotsAndKeys(t: seq<DirectoryEntry>)
    requires NamesUnique(t)
    ensures |Marked(SlotsInUse(t), 0)| == |KeysOf(t)|
  {
    var slots := Marked(SlotsInUse(t), 0);
    forall key | key in KeysOf(t)
      ensures exists i :: i in slots && EntryKey(t[i]) == key
    {
      var i :| 0 <= i < |t| && InUse(t[i]) && EntryKey(t[i]) == key;
      assert i in slots;
    }
    SameSize(slots, KeysOf(t), i => if 0 <= i < |t| then EntryKey(t[i]) else []);
  }

  lemma FreeSlotsLeft(t: seq<DirectoryEntry>)
    requires NamesUnique(t)
    ensures FreeSlot(t, 0) != -1 <==> |KeysOf(t)| < |t|
  {
    SlotsAndKeys(t);
    ClearAndMarked(SlotsInUse(t));
    CountZero(SlotsInUse(t));
    assert FreeSlot(t, 0) != -1 ==> !SlotsInUse(t)[FreeSlot(t, 0)];
  }

  lemma AsManyFilesAsKeys(d: Store, t: seq<DirectoryEntry>)
    requires FilesOk(d, t)
    ensures |FilesIn(d, t)| == |KeysOf(t)|
  {
    assert FilesIn(d, t).Keys == KeysOf(t);
  }

  /** On a consistent volume the clear sectors are those that the files leave, and a slot is free exactly if there
    are fewer files than slots. */
  lemma RoomIsWhatFilesLeave(d: Store)
    requires Consistent(d)
    ensures CountClear(BitsOn(d)) + |Taken(Files(d))| == ROOM
    ensures FreeSlot(TableOn(d), 0) != -1 <==> |Files(d)| < NUM_DIR_ENTRIES
  {
    ClearBesides(d, TableOn(d), BitsOn(d));
    FreeSlotsLeft(TableOn(d));
    AsManyFilesAsKeys(d, TableOn(d));
  }
}
