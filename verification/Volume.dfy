/** What a formatted disk means: the invariant that ties bit map, directory and file headers together on the
  disk itself, and the map from names to contents that the disk stands for. */
module Volumes {
  import opened Bytes
  import opened Sectors
  import opened BitMaps
  import opened FileHeaders
  import opened OpenFiles
  import opened Directories

  const FREE_MAP_SECTOR: nat := 0
  const DIRECTORY_SECTOR: nat := 1
  const FREE_MAP_FILE_SIZE: nat := 128
  const NUM_DIR_ENTRIES: nat := 10
  const DIRECTORY_FILE_SIZE: nat := 200
  /** Formatting puts the two headers and the three data sectors of the metadata files at the front. */
  const SYSTEM_SECTORS: nat := 5

  function HeaderAt(d: Store, s: nat): Header
    requires s < NUM_SECTORS
  {
    DecodeHeader(d[s])
  }

  ghost predicate IsMapHeader(h: Header) {
    WellFormed(h) && h.numBytes == FREE_MAP_FILE_SIZE && h.dataSectors[0] == 2
  }

  ghost predicate IsDirectoryHeader(h: Header) {
    WellFormed(h) && h.numBytes == DIRECTORY_FILE_SIZE && h.dataSectors[0] == 3 && h.dataSectors[1] == 4
  }

  ghost predicate SystemOk(d: Store) {
    IsMapHeader(HeaderAt(d, FREE_MAP_SECTOR)) && IsDirectoryHeader(HeaderAt(d, DIRECTORY_SECTOR))
  }

  function BitsIn(content: seq<byte>): (bits: seq<bool>)
    requires |content| == FREE_MAP_FILE_SIZE
    ensures |bits| == NUM_SECTORS
  {
    BitsOf(DecodeWords(content), NUM_SECTORS)
  }

  /** The bit map and the directory table as they are on disk. */
  function BitsOn(d: Store): (bits: seq<bool>)
    requires SystemOk(d)
    ensures |bits| == NUM_SECTORS
  {
    BitsIn(Contents(d, HeaderAt(d, FREE_MAP_SECTOR)))
  }

  function TableOn(d: Store): (t: seq<DirectoryEntry>)
    requires SystemOk(d)
    ensures |t| == NUM_DIR_ENTRIES
  {
    Unflatten(Contents(d, HeaderAt(d, DIRECTORY_SECTOR)))
  }

  function DataOf(h: Header): seq<int>
    requires WellFormed(h)
  {
    h.dataSectors[..h.numSectors]
  }

  /** A file whose header is in sector `s`: the header is sound and lies outside its own data. */
  ghost predicate FileOk(d: Store, s: int) {
    && SYSTEM_SECTORS <= s < NUM_SECTORS
    && WellFormed(HeaderAt(d, s))
    && s !in DataOf(HeaderAt(d, s))
    && forall x :: x in DataOf(HeaderAt(d, s)) ==> SYSTEM_SECTORS <= x < NUM_SECTORS
  }

  /** The sectors of the file with header sector `s`. */
  predicate Owns(d: Store, s: nat, x: int)
    requires s < NUM_SECTORS && WellFormed(HeaderAt(d, s))
  {
    x == s || x in DataOf(HeaderAt(d, s))
  }

  ghost predicate FilesOk(d: Store, t: seq<DirectoryEntry>) {
    forall i :: 0 <= i < |t| && InUse(t[i]) ==> FileOk(d, SectorOf(t[i]))
  }

  ghost predicate FilesApart(d: Store, t: seq<DirectoryEntry>)
    requires FilesOk(d, t)
  {
    forall i, j, x :: 0 <= i < j < |t| && InUse(t[i]) && InUse(t[j]) ==>
      !(Owns(d, SectorOf(t[i]), x) && Owns(d, SectorOf(t[j]), x))
  }

  ghost predicate NamesUnique(t: seq<DirectoryEntry>) {
    forall i, j :: 0 <= i < j < |t| && InUse(t[i]) && InUse(t[j]) ==> EntryKey(t[i]) != EntryKey(t[j])
  }

  ghost predicate InSomeFile(d: Store, t: seq<DirectoryEntry>, x: int)
    requires FilesOk(d, t)
  {
    exists i :: 0 <= i < |t| && InUse(t[i]) && Owns(d, SectorOf(t[i]), x)
  }

  ghost predicate MapExact(d: Store, t: seq<DirectoryEntry>, bits: seq<bool>)
    requires FilesOk(d, t) && |bits| == NUM_SECTORS
  {
    forall x :: 0 <= x < NUM_SECTORS ==> (bits[x] <==> x < SYSTEM_SECTORS || InSomeFile(d, t, x))
  }

  ghost predicate Sound(d: Store, t: seq<DirectoryEntry>, bits: seq<bool>) {
    && |bits| == NUM_SECTORS
    && FilesOk(d, t)
    && FilesApart(d, t)
    && NamesUnique(t)
    && MapExact(d, t, bits)
  }

  /** The disk-wide invariant: the map marks exactly the metadata sectors and the header and data sectors of the
      listed files, no sector serves two purposes, and names are unique. */
  ghost predicate Consistent(d: Store) {
    SystemOk(d) && Sound(d, TableOn(d), BitsOn(d))
  }

  /** The file in slot `i`. */
  function SlotContents(d: Store, t: seq<DirectoryEntry>, i: nat): seq<byte>
    requires i < |t| && FileOk(d, SectorOf(t[i]))
  {
    Contents(d, HeaderAt(d, SectorOf(t[i])))
  }

  function KeysOf(t: seq<DirectoryEntry>): set<seq<byte>> {
    set i | 0 <= i < |t| && InUse(t[i]) :: EntryKey(t[i])
  }

  function FilesIn(d: Store, t: seq<DirectoryEntry>): map<seq<byte>, seq<byte>>
    requires FilesOk(d, t)
  {
    map key | key in KeysOf(t) :: SlotContents(d, t, IndexOf(t, key, 0))
  }

  /** What the disk means to its users: a map from names to byte sequences. */
  function Files(d: Store): map<seq<byte>, seq<byte>>
    requires Consistent(d)
  {
    FilesIn(d, TableOn(d))
  }

  lemma KeyInTable(t: seq<DirectoryEntry>, key: seq<byte>)
    ensures key in KeysOf(t) <==> IndexOf(t, key, 0) != -1
  {}

  lemma SlotOfKey(t: seq<DirectoryEntry>, i: nat)
    requires NamesUnique(t) && i < |t| && InUse(t[i])
    ensures EntryKey(t[i]) in KeysOf(t) && IndexOf(t, EntryKey(t[i]), 0) == i
  {}

  /** The map `m` lists exactly the slots in use, each under its key with its contents. */
  ghost predicate Lists(m: map<seq<byte>, seq<byte>>, d: Store, t: seq<DirectoryEntry>)
    requires FilesOk(d, t)
  {
    && (forall i :: 0 <= i < |t| && InUse(t[i]) ==> EntryKey(t[i]) in m && m[EntryKey(t[i])] == SlotContents(d, t, i))
    && (forall key :: key in m ==> IndexOf(t, key, 0) != -1)
  }

  lemma FilesAreListed(d: Store, t: seq<DirectoryEntry>)
    requires FilesOk(d, t) && NamesUnique(t)
    ensures Lists(FilesIn(d, t), d, t)
  {
    forall i | 0 <= i < |t| && InUse(t[i])
      ensures EntryKey(t[i]) in KeysOf(t) && IndexOf(t, EntryKey(t[i]), 0) == i
    {
      SlotOfKey(t, i);
    }
  }

  lemma ListedAreFiles(m: map<seq<byte>, seq<byte>>, d: Store, t: seq<DirectoryEntry>)
    requires FilesOk(d, t) && NamesUnique(t) && Lists(m, d, t)
    ensures FilesIn(d, t) == m
  {
    forall key | key in KeysOf(t)
      ensures key in m && m[key] == SlotContents(d, t, IndexOf(t, key, 0))
    {}
    forall key | key in m
      ensures key in KeysOf(t)
    {
      KeyInTable(t, key);
    }
  }

  lemma ContentsFrame(d: Store, d': Store, h: Header)
    requires WellFormed(h)
    requires forall x :: x in DataOf(h) ==> d'[x] == d[x]
    ensures Contents(d', h) == Contents(d, h)
  {
    forall i | 0 <= i < h.numSectors
      ensures d'[h.dataSectors[i]] == d[h.dataSectors[i]]
    {
      assert h.dataSectors[i] == DataOf(h)[i];
    }
    assert Raw(d', h) == Raw(d, h);
  }

  lemma MapSectors(h: Header)
    requires IsMapHeader(h)
    ensures DataOf(h) == [2]
  {
    assert h.numSectors == 1;
  }

  lemma DirectorySectors(h: Header)
    requires IsDirectoryHeader(h)
    ensures DataOf(h) == [3, 4]
  {
    assert h.numSectors == 2;
  }

  /** The metadata read back depends on the first five sectors alone. */
  lemma SystemFrame(d: Store, d': Store)
    requires SystemOk(d) && forall x :: 0 <= x < SYSTEM_SECTORS ==> d'[x] == d[x]
    ensures SystemOk(d') && BitsOn(d') == BitsOn(d) && TableOn(d') == TableOn(d)
  {
    MapSectors(HeaderAt(d, FREE_MAP_SECTOR));
    DirectorySectors(HeaderAt(d, DIRECTORY_SECTOR));
    ContentsFrame(d, d', HeaderAt(d, FREE_MAP_SECTOR));
    ContentsFrame(d, d', HeaderAt(d, DIRECTORY_SECTOR));
  }

  /** Files keep their headers and contents when none of their sectors changes. */
  lemma SlotFrame(d: Store, d': Store, s: int)
    requires FileOk(d, s) && forall x :: 0 <= x < NUM_SECTORS && Owns(d, s, x) ==> d'[x] == d[x]
    ensures FileOk(d', s) && HeaderAt(d', s) == HeaderAt(d, s)
    ensures Contents(d', HeaderAt(d', s)) == Contents(d, HeaderAt(d, s))
  {
    assert Owns(d, s, s);
    ContentsFrame(d, d', HeaderAt(d, s));
  }

  /** The files in use have kept their headers from `d` to `d'`. */
  ghost predicate HeadersKept(d: Store, d': Store, t: seq<DirectoryEntry>) {
    forall i :: 0 <= i < |t| && InUse(t[i]) ==>
      FileOk(d', SectorOf(t[i])) && HeaderAt(d', SectorOf(t[i])) == HeaderAt(d, SectorOf(t[i]))
  }

  lemma SoundWithHeadersKept(d: Store, d': Store, t: seq<DirectoryEntry>, bits: seq<bool>)
    requires Sound(d, t, bits) && HeadersKept(d, d', t)
    ensures Sound(d', t, bits)
    ensures forall x :: InSomeFile(d', t, x) <==> InSomeFile(d, t, x)
  {
    forall i, x | 0 <= i < |t| && InUse(t[i])
      ensures Owns(d', SectorOf(t[i]), x) == Owns(d, SectorOf(t[i]), x)
    {}
    forall x
      ensures InSomeFile(d', t, x) <==> InSomeFile(d, t, x)
    {
      if InSomeFile(d, t, x) {
        var i :| 0 <= i < |t| && InUse(t[i]) && Owns(d, SectorOf(t[i]), x);
        assert Owns(d', SectorOf(t[i]), x);
      }
      if InSomeFile(d', t, x) {
        var i :| 0 <= i < |t| && InUse(t[i]) && Owns(d', SectorOf(t[i]), x);
        assert Owns(d, SectorOf(t[i]), x);
      }
    }
  }

  /** Changing sectors that no listed file owns leaves every file as it was. */
  lemma FilesUntouched(d: Store, d': Store, t: seq<DirectoryEntry>, bits: seq<bool>)
    requires Sound(d, t, bits)
    requires forall x :: 0 <= x < NUM_SECTORS && d'[x] != d[x] ==> !InSomeFile(d, t, x)
    ensures HeadersKept(d, d', t)
    ensures forall i :: 0 <= i < |t| && InUse(t[i]) ==> SlotContents(d', t, i) == SlotContents(d, t, i)
  {
    forall i | 0 <= i < |t| && InUse(t[i])
      ensures FileOk(d', SectorOf(t[i])) && HeaderAt(d', SectorOf(t[i])) == HeaderAt(d, SectorOf(t[i]))
      ensures SlotContents(d', t, i) == SlotContents(d, t, i)
    {
      SlotFrame(d, d', SectorOf(t[i]));
    }
  }

  // ---- Writing into a file ----

  /** Only data of the file in slot `k` changes: every header and every other file stays. */
  lemma DataChangeKeepsOthers(d: Store, d': Store, t: seq<DirectoryEntry>, bits: seq<bool>, k: nat)
    requires Sound(d, t, bits) && k < |t| && InUse(t[k])
    requires forall x :: 0 <= x < NUM_SECTORS && x !in DataOf(HeaderAt(d, SectorOf(t[k]))) ==> d'[x] == d[x]
    ensures HeadersKept(d, d', t)
    ensures forall i :: 0 <= i < |t| && InUse(t[i]) && i != k ==> SlotContents(d', t, i) == SlotContents(d, t, i)
  {
    var s := SectorOf(t[k]);
    assert FileOk(d, s);
    forall i | 0 <= i < |t| && InUse(t[i]) && i != k
      ensures FileOk(d', SectorOf(t[i])) && HeaderAt(d', SectorOf(t[i])) == HeaderAt(d, SectorOf(t[i]))
      ensures SlotContents(d', t, i) == SlotContents(d, t, i)
    {
      forall x | 0 <= x < NUM_SECTORS && Owns(d, SectorOf(t[i]), x)
        ensures d'[x] == d[x]
      {
        assert !Owns(d, s, x);
      }
      SlotFrame(d, d', SectorOf(t[i]));
    }
  }

  /** The file listed under `key` has the header `h`. */
  ghost predicate ListedAs(d: Store, key: seq<byte>, h: Header)
    requires Consistent(d)
  {
    && key in Files(d)
    && h == HeaderAt(d, SectorOf(TableOn(d)[IndexOf(TableOn(d), key, 0)]))
  }

  lemma ListedFile(d: Store, key: seq<byte>, h: Header)
    requires Consistent(d) && ListedAs(d, key, h)
    ensures var t := TableOn(d);
            var k := IndexOf(t, key, 0);
            && 0 <= k < |t| && InUse(t[k]) && EntryKey(t[k]) == key && FileOk(d, SectorOf(t[k]))
            && Files(d)[key] == SlotContents(d, t, k) && WellFormed(h)
  {
    KeyInTable(TableOn(d), key);
  }

  /** Changing a listed file's data: the disk stays consistent and means the old map with that one file changed. */
  lemma DataChangeRefines(d: Store, d': Store, key: seq<byte>, h: Header)
    requires Consistent(d) && ListedAs(d, key, h) && WellFormed(h)
    requires forall x :: 0 <= x < NUM_SECTORS && x !in DataOf(h) ==> d'[x] == d[x]
    ensures Consistent(d') && forall x :: 0 <= x < SYSTEM_SECTORS ==> d'[x] == d[x]
    ensures HeadersKept(d, d', TableOn(d)) && BitsOn(d') == BitsOn(d) && TableOn(d') == TableOn(d)
    ensures Files(d') == Files(d)[key := Contents(d', h)]
  {
    var t, bits := TableOn(d), BitsOn(d);
    var k := IndexOf(t, key, 0);
    ListedFile(d, key, h);
    SystemFrame(d, d');
    DataChangeKeepsOthers(d, d', t, bits, k);
    SlotChangeRefines(d, d', t, bits, k);
  }

  lemma SlotChangeRefines(d: Store, d': Store, t: seq<DirectoryEntry>, bits: seq<bool>, k: nat)
    requires Sound(d, t, bits) && k < |t| && InUse(t[k]) && HeadersKept(d, d', t)
    requires forall i :: 0 <= i < |t| && InUse(t[i]) && i != k ==> SlotContents(d', t, i) == SlotContents(d, t, i)
    ensures Sound(d', t, bits)
    ensures FilesIn(d', t) == FilesIn(d, t)[EntryKey(t[k]) := SlotContents(d', t, k)]
  {
    SoundWithHeadersKept(d, d', t, bits);
    FilesAreListed(d, t);
    ListedAreFiles(FilesIn(d, t)[EntryKey(t[k]) := SlotContents(d', t, k)], d', t);
  }

  /** Writing through a listed file's header rewrites that one file. */
  lemma WriteRefines(d: Store, d': Store, key: seq<byte>, h: Header, position: nat, from: seq<byte>)
    requires Consistent(d) && ListedAs(d, key, h) && WellFormed(h) && WroteAt(d, d', h, position, from)
    ensures Consistent(d') && forall x :: 0 <= x < SYSTEM_SECTORS ==> d'[x] == d[x]
    ensures HeadersKept(d, d', TableOn(d)) && BitsOn(d') == BitsOn(d) && TableOn(d') == TableOn(d)
    ensures Files(d') == Files(d)[key := Written(Files(d)[key], position, from)]
  {
    ListedFile(d, key, h);
    DataChangeRefines(d, d', key, h);
  }

  // ---- Writing through a header fetched earlier ----

  /** An open file writes through the header it fetched when it was opened, whatever has become of the file since.
    It is safe to write through it if that is still the file's header, or if no sector written is in use. */
  ghost predicate SafeWrite(d: Store, key: seq<byte>, h: Header, position: nat, count: nat)
    requires Consistent(d) && WellFormed(h)
  {
    ListedAs(d, key, h) || forall x :: x in WrittenSectors(h, position, count) ==> !BitsOn(d)[x]
  }

  /** The sectors a write through `h` has no business with: metadata and listed files, but for the data of the file
    under `key` if `h` is its header. */
  ghost predicate Foreign(d: Store, key: seq<byte>, h: Header, x: nat)
    requires Consistent(d) && WellFormed(h)
  {
    (x < SYSTEM_SECTORS || InSomeFile(d, TableOn(d), x)) && !(ListedAs(d, key, h) && x in DataOf(h))
  }

  ghost predicate OthersKept(d: Store, d': Store, key: seq<byte>, h: Header)
    requires Consistent(d) && WellFormed(h)
  {
    forall x :: 0 <= x < NUM_SECTORS && Foreign(d, key, h, x) ==> d'[x] == d[x]
  }

  /** What a safe write does to the volume. */
  lemma SafeWriteRefines(d: Store, d': Store, key: seq<byte>, h: Header, position: nat, from: seq<byte>)
    requires Consistent(d) && WellFormed(h) && SafeWrite(d, key, h, position, |from|)
    requires WroteAt(d, d', h, position, from)
    ensures Consistent(d') && forall x :: 0 <= x < SYSTEM_SECTORS ==> d'[x] == d[x]
    ensures HeadersKept(d, d', TableOn(d)) && BitsOn(d') == BitsOn(d) && TableOn(d') == TableOn(d)
    ensures Files(d') ==
              if ListedAs(d, key, h) then Files(d)[key := Written(Files(d)[key], position, from)] else Files(d)
  {
    if ListedAs(d, key, h) {
      WriteRefines(d, d', key, h, position, from);
    } else {
      UnusedSectorsRefine(d, d', key, h, position, from);
    }
  }

  /** Writing to sectors that are not in use is no change to the volume. */
  lemma UnusedSectorsRefine(d: Store, d': Store, key: seq<byte>, h: Header, position: nat, from: seq<byte>)
    requires Consistent(d) && WellFormed(h) && WroteAt(d, d', h, position, from)
    requires forall x :: x in WrittenSectors(h, position, |from|) ==> !BitsOn(d)[x]
    ensures Consistent(d') && Files(d') == Files(d) && forall x :: 0 <= x < SYSTEM_SECTORS ==> d'[x] == d[x]
    ensures HeadersKept(d, d', TableOn(d)) && BitsOn(d') == BitsOn(d) && TableOn(d') == TableOn(d)
  {
    var t, bits := TableOn(d), BitsOn(d);
    forall x | 0 <= x < NUM_SECTORS && d'[x] != d[x]
      ensures !bits[x]
    {
      assert x in WrittenSectors(h, position, |from|);
    }
    SystemFrame(d, d');
    FilesUntouched(d, d', t, bits);
    SoundWithHeadersKept(d, d', t, bits);
    FilesAreListed(d, t);
    ListedAreFiles(FilesIn(d, t), d', t);
  }

  /** Metadata and listed files are what is marked. */
  lemma MarkedIsInUse(d: Store, x: nat)
    requires Consistent(d) && x < NUM_SECTORS
    ensures BitsOn(d)[x] <==> x < SYSTEM_SECTORS || InSomeFile(d, TableOn(d), x)
  {}

  /** A write that puts something new on sector `x`. */
  lemma SomeWriteChanges(d: Store, h: Header, position: nat, count: nat, x: int)
    requires WellFormed(h) && x in WrittenSectors(h, position, count)
    ensures exists d', from :: |from| == count && WroteAt(d, d', h, position, from) && d'[x] != d[x]
  {
    var n := Clip(h.numBytes, count, position);
    TouchedSectors(h, position, n);
    var first := position / SECTOR_SIZE;
    var j :| 0 <= j < |WrittenSectors(h, position, count)| && WrittenSectors(h, position, count)[j] == x;
    var i := first + j;
    var k := if position < i * SECTOR_SIZE then i * SECTOR_SIZE else position;
    assert k / SECTOR_SIZE == i && position <= k < position + n;
    var other: byte := if d[x][k % SECTOR_SIZE] == 0 then 1 else 0;
    var from: seq<byte> := seq(count, _ => other);
    var d' := SomeWrite(d, h, position, from);
    WrittenByteIs(d, d', h, position, from, k);
  }

  lemma WrittenByteIs(d: Store, d': Store, h: Header, position: nat, from: seq<byte>, k: nat)
    requires WellFormed(h) && WroteAt(d, d', h, position, from)
    requires position <= k < position + Clip(h.numBytes, |from|, position)
    ensures k < h.numBytes && k / SECTOR_SIZE < h.numSectors
    ensures d'[h.dataSectors[k / SECTOR_SIZE]][k % SECTOR_SIZE] == from[k - position]
  {
    SectorsCoverBytes(h.numBytes);
    assert Contents(d', h)[k] == from[k - position];
  }

  lemma SafeWritesAreHarmless(d: Store, d': Store, key: seq<byte>, h: Header, position: nat, from: seq<byte>)
    requires Consistent(d) && WellFormed(h) && SafeWrite(d, key, h, position, |from|)
    requires WroteAt(d, d', h, position, from)
    ensures OthersKept(d, d', key, h)
  {
    forall x | 0 <= x < NUM_SECTORS && Foreign(d, key, h, x)
      ensures d'[x] == d[x]
    {
      MarkedIsInUse(d, x);
      assert x !in WrittenSectors(h, position, |from|);
    }
  }

  lemma UnsafeWritesHarm(d: Store, key: seq<byte>, h: Header, position: nat, count: nat)
    requires Consistent(d) && WellFormed(h) && !SafeWrite(d, key, h, position, count)
    ensures exists d', from :: |from| == count && WroteAt(d, d', h, position, from) && !OthersKept(d, d', key, h)
  {
    var x :| x in WrittenSectors(h, position, count) && BitsOn(d)[x];
    MarkedIsInUse(d, x);
    SomeWriteChanges(d, h, position, count, x);
    var d', from :| |from| == count && WroteAt(d, d', h, position, from) && d'[x] != d[x];
    assert Foreign(d, key, h, x);
  }

  /** The exact condition: a write of so many bytes leaves metadata and every other listed file alone, whatever the
    bytes, if and only if the file is still listed with that header or no sector written is in use. */
  lemma WritesAreHarmlessIffSafe(d: Store, key: seq<byte>, h: Header, position: nat, count: nat)
    requires Consistent(d) && WellFormed(h)
    ensures SafeWrite(d, key, h, position, count)
            <==> forall d', from :: |from| == count && WroteAt(d, d', h, position, from) ==> OthersKept(d, d', key, h)
  {
    if SafeWrite(d, key, h, position, count) {
      forall d', from | |from| == count && WroteAt(d, d', h, position, from)
        ensures OthersKept(d, d', key, h)
      {
        SafeWritesAreHarmless(d, d', key, h, position, from);
      }
    } else {
      UnsafeWritesHarm(d, key, h, position, count);
    }
  }

  // ---- Creating a file ----

  /** The in-memory outcome of a successful Create, before anything is flushed. */
  ghost predicate Planned(t: seq<DirectoryEntry>, bits: seq<bool>, t': seq<DirectoryEntry>, bits': seq<bool>,
                          name: CString, size: nat, h: Header) {
    var s, slot := FirstClear(bits, 0), FreeSlot(t, 0);
    && s != -1 && slot != -1 && |bits| == NUM_SECTORS
    && IndexOf(t, NameKey(name), 0) == -1
    && t' == t[slot := Added(t[slot], name, s)]
    && WellFormed(h) && h.numBytes == size
    && Allocated(bits[s := true], bits', DataOf(h))
  }

  /** The new header is in its sector, and nothing outside it and the metadata has changed. */
  ghost predicate HeaderStored(d: Store, d': Store, s: int, h: Header) {
    && 0 <= s < NUM_SECTORS && HeaderAt(d', s) == h
    && forall x :: SYSTEM_SECTORS <= x < NUM_SECTORS && x != s ==> d'[x] == d[x]
  }

  ghost predicate CreatedWith(d: Store, d': Store, name: CString, size: nat, h: Header)
    requires SystemOk(d)
  {
    && SystemOk(d')
    && Planned(TableOn(d), BitsOn(d), TableOn(d'), BitsOn(d'), name, size, h)
    && HeaderStored(d, d', FirstClear(BitsOn(d), 0), h)
  }

  /** The new file's sectors were clear, so they belong to no other file and to no metadata. */
  lemma NewSectorsAreFree(d: Store, t: seq<DirectoryEntry>, bits: seq<bool>, bits': seq<bool>, s: nat, h: Header,
                          x: int)
    requires Sound(d, t, bits) && s == FirstClear(bits, 0)
    requires WellFormed(h) && Allocated(bits[s := true], bits', DataOf(h))
    requires x == s || x in DataOf(h)
    ensures SYSTEM_SECTORS <= x < NUM_SECTORS && !InSomeFile(d, t, x)
    ensures x in DataOf(h) ==> x != s
  {
    if x in DataOf(h) {
      var i :| 0 <= i < |DataOf(h)| && DataOf(h)[i] == x;
      assert !bits[s := true][x];
    }
    assert !bits[x];
  }

  /** Metadata sectors belong to no file. */
  lemma MetadataIsNoFile(d: Store, t: seq<DirectoryEntry>, x: int)
    requires FilesOk(d, t) && x < SYSTEM_SECTORS
    ensures !InSomeFile(d, t, x)
  {
    forall i | 0 <= i < |t| && InUse(t[i])
      ensures !Owns(d, SectorOf(t[i]), x)
    {
      assert FileOk(d, SectorOf(t[i]));
    }
  }

  lemma OldFilesSurviveCreate(d: Store, d': Store, t: seq<DirectoryEntry>, bits: seq<bool>, bits': seq<bool>, s: nat,
                              h: Header)
    requires Sound(d, t, bits) && s == FirstClear(bits, 0)
    requires WellFormed(h) && Allocated(bits[s := true], bits', DataOf(h)) && HeaderStored(d, d', s, h)
    ensures FileOk(d', s) && Sound(d', t, bits) && HeadersKept(d, d', t)
    ensures forall i :: 0 <= i < |t| && InUse(t[i]) ==> SlotContents(d', t, i) == SlotContents(d, t, i)
    ensures forall x :: Owns(d', s, x) ==> !InSomeFile(d', t, x)
  {
    forall x | x == s || x in DataOf(h)
      ensures SYSTEM_SECTORS <= x < NUM_SECTORS && !InSomeFile(d, t, x) && (x in DataOf(h) ==> x != s)
    {
      NewSectorsAreFree(d, t, bits, bits', s, h, x);
    }
    forall x | 0 <= x < NUM_SECTORS && d'[x] != d[x]
      ensures !InSomeFile(d, t, x)
    {
      if x < SYSTEM_SECTORS {
        MetadataIsNoFile(d, t, x);
      }
    }
    FilesUntouched(d, d', t, bits);
    SoundWithHeadersKept(d, d', t, bits);
  }

  lemma NewFileKeepsApart(d: Store, t: seq<DirectoryEntry>, bits: seq<bool>, slot: nat, e: DirectoryEntry)
    requires Sound(d, t, bits) && slot < |t| && !InUse(t[slot]) && FileOk(d, SectorOf(e))
    requires forall x :: Owns(d, SectorOf(e), x) ==> !InSomeFile(d, t, x)
    ensures FilesOk(d, t[slot := e]) && FilesApart(d, t[slot := e])
  {
    forall i, x | 0 <= i < |t| && InUse(t[i]) && Owns(d, SectorOf(t[i]), x)
      ensures !Owns(d, SectorOf(e), x)
    {
      assert InSomeFile(d, t, x);
    }
  }

  lemma NewFileMapped(d: Store, t: seq<DirectoryEntry>, slot: nat, e: DirectoryEntry, x: int)
    requires FilesOk(d, t) && slot < |t| && !InUse(t[slot]) && InUse(e) && FileOk(d, SectorOf(e))
    requires FilesOk(d, t[slot := e])
    ensures InSomeFile(d, t[slot := e], x) <==> InSomeFile(d, t, x) || Owns(d, SectorOf(e), x)
  {
    var t' := t[slot := e];
    if InSomeFile(d, t, x) {
      var i :| 0 <= i < |t| && InUse(t[i]) && Owns(d, SectorOf(t[i]), x);
      assert t'[i] == t[i];
    }
    if Owns(d, SectorOf(e), x) {
      assert InUse(t'[slot]);
    }
    if InSomeFile(d, t', x) {
      var i :| 0 <= i < |t'| && InUse(t'[i]) && Owns(d, SectorOf(t'[i]), x);
      assert i != slot ==> t'[i] == t[i];
    }
  }

  /** Adding a sound, separate file to a sound table. */
  lemma SoundWithNewFile(d: Store, t: seq<DirectoryEntry>, bits: seq<bool>, slot: nat, e: DirectoryEntry,
                         bits': seq<bool>)
    requires Sound(d, t, bits) && slot < |t| && !InUse(t[slot]) && InUse(e) && FileOk(d, SectorOf(e))
    requires forall x :: Owns(d, SectorOf(e), x) ==> !InSomeFile(d, t, x)
    requires IndexOf(t, EntryKey(e), 0) == -1
    requires |bits'| == NUM_SECTORS
    requires forall x :: 0 <= x < NUM_SECTORS ==> (bits'[x] <==> bits[x] || Owns(d, SectorOf(e), x))
    ensures Sound(d, t[slot := e], bits')
  {
    var t' := t[slot := e];
    NewFileKeepsApart(d, t, bits, slot, e);
    forall x | 0 <= x < NUM_SECTORS
      ensures bits'[x] <==> x < SYSTEM_SECTORS || InSomeFile(d, t', x)
    {
      NewFileMapped(d, t, slot, e, x);
    }
    forall i | 0 <= i < |t| && InUse(t[i])
      ensures EntryKey(t[i]) != EntryKey(e)
    {}
  }

  lemma ListsOneMore(m: map<seq<byte>, seq<byte>>, d: Store, t: seq<DirectoryEntry>, slot: nat, e: DirectoryEntry)
    requires FilesOk(d, t) && Lists(m, d, t) && slot < |t| && !InUse(t[slot]) && InUse(e)
    requires FilesOk(d, t[slot := e]) && NamesUnique(t[slot := e])
    ensures Lists(m[EntryKey(e) := SlotContents(d, t[slot := e], slot)], d, t[slot := e])
  {
    var t' := t[slot := e];
    var m' := m[EntryKey(e) := SlotContents(d, t', slot)];
    forall key | key in m'
      ensures IndexOf(t', key, 0) != -1
    {
      if key == EntryKey(e) {
        assert InUse(t'[slot]);
      } else {
        var i := IndexOf(t, key, 0);
        assert t'[i] == t[i];
      }
    }
    forall i | 0 <= i < |t'| && InUse(t'[i])
      ensures EntryKey(t'[i]) in m' && m'[EntryKey(t'[i])] == SlotContents(d, t', i)
    {
      assert t'[slot] == e;
      assert i != slot ==> t'[i] == t[i];
    }
  }

  /** A successful Create: the disk stays consistent and means the old map with one more file of that size. */
  lemma CreateRefines(d: Store, d': Store, name: CString, size: nat, h: Header)
    requires Consistent(d) && CreatedWith(d, d', name, size, h)
    ensures Consistent(d')
    ensures NameKey(name) !in Files(d)
    ensures |Contents(d', h)| == size && Files(d') == Files(d)[NameKey(name) := Contents(d', h)]
  {
    var t, bits, bits' := TableOn(d), BitsOn(d), BitsOn(d');
    var s, slot := FirstClear(bits, 0), FreeSlot(t, 0);
    AddedEntry(t[slot], name, s);
    OldFilesSurviveCreate(d, d', t, bits, bits', s, h);
    SoundWithNewFile(d', t, bits, slot, Added(t[slot], name, s), bits');
    FilesAreListed(d, t);
    ListsOneMore(FilesIn(d, t), d', t, slot, Added(t[slot], name, s));
    ListedAreFiles(FilesIn(d, t)[NameKey(name) := Contents(d', h)], d', TableOn(d'));
    KeyInTable(t, NameKey(name));
  }

  // ---- Removing a file ----

  ghost predicate RemovedFrom(d: Store, d': Store, name: CString)
    requires SystemOk(d)
  {
    var t := TableOn(d);
    var k := IndexOf(t, NameKey(name), 0);
    && k != -1 && FileOk(d, SectorOf(t[k]))
    && SystemOk(d')
    && TableOn(d') == t[k := Dropped(t[k])]
    && Deallocated(BitsOn(d), BitsOn(d'), DataOf(HeaderAt(d, SectorOf(t[k]))) + [SectorOf(t[k])])
    && forall x :: SYSTEM_SECTORS <= x < NUM_SECTORS ==> d'[x] == d[x]
  }

  lemma RemainingFiles(d: Store, t: seq<DirectoryEntry>, bits: seq<bool>, k: nat, x: int)
    requires Sound(d, t, bits) && k < |t| && InUse(t[k]) && FilesOk(d, t[k := Dropped(t[k])])
    ensures InSomeFile(d, t[k := Dropped(t[k])], x) <==> InSomeFile(d, t, x) && !Owns(d, SectorOf(t[k]), x)
  {
    var t' := t[k := Dropped(t[k])];
    if InSomeFile(d, t', x) {
      var i :| 0 <= i < |t'| && InUse(t'[i]) && Owns(d, SectorOf(t'[i]), x);
      assert i != k && t'[i] == t[i];
    }
    if InSomeFile(d, t, x) && !Owns(d, SectorOf(t[k]), x) {
      var i :| 0 <= i < |t| && InUse(t[i]) && Owns(d, SectorOf(t[i]), x);
      assert i != k && t'[i] == t[i];
    }
  }

  /** Dropping a file from a sound table. */
  lemma SoundWithoutFile(d: Store, t: seq<DirectoryEntry>, bits: seq<bool>, k: nat, bits': seq<bool>)
    requires Sound(d, t, bits) && k < |t| && InUse(t[k])
    requires Deallocated(bits, bits', DataOf(HeaderAt(d, SectorOf(t[k]))) + [SectorOf(t[k])])
    ensures Sound(d, t[k := Dropped(t[k])], bits')
  {
    var t', s := t[k := Dropped(t[k])], SectorOf(t[k]);
    assert FileOk(d, s);
    forall i | 0 <= i < |t'| && InUse(t'[i])
      ensures i != k && t'[i] == t[i] && FileOk(d, SectorOf(t'[i]))
    {
      assert FileOk(d, SectorOf(t[i]));
    }
    forall x | 0 <= x < NUM_SECTORS
      ensures bits'[x] <==> x < SYSTEM_SECTORS || InSomeFile(d, t', x)
    {
      RemainingFiles(d, t, bits, k, x);
      assert x in DataOf(HeaderAt(d, s)) + [s] <==> Owns(d, s, x);
    }
  }

  lemma ListsWithoutOne(m: map<seq<byte>, seq<byte>>, d: Store, t: seq<DirectoryEntry>, k: nat)
    requires FilesOk(d, t) && NamesUnique(t) && Lists(m, d, t) && k < |t| && InUse(t[k])
    requires FilesOk(d, t[k := Dropped(t[k])])
    ensures Lists(m - {EntryKey(t[k])}, d, t[k := Dropped(t[k])])
  {
    var t', m' := t[k := Dropped(t[k])], m - {EntryKey(t[k])};
    assert !InUse(t'[k]);
    forall q | q in m'
      ensures IndexOf(t', q, 0) != -1
    {
      var i := IndexOf(t, q, 0);
      assert t'[i] == t[i];
    }
    forall i | 0 <= i < |t'| && InUse(t'[i])
      ensures EntryKey(t'[i]) in m' && m'[EntryKey(t'[i])] == SlotContents(d, t', i)
    {
      assert i != k && t'[i] == t[i];
      assert EntryKey(t[i]) != EntryKey(t[k]);
      assert SlotContents(d, t', i) == SlotContents(d, t, i);
    }
  }

  /** A Remove: the disk stays consistent and means the old map without that file. */
  lemma RemoveRefines(d: Store, d': Store, name: CString)
    requires Consistent(d) && RemovedFrom(d, d', name)
    ensures Consistent(d')
    ensures NameKey(name) in Files(d) && Files(d') == Files(d) - {NameKey(name)}
  {
    var t, bits, bits' := TableOn(d), BitsOn(d), BitsOn(d');
    var k := IndexOf(t, NameKey(name), 0);
    KeyInTable(t, NameKey(name));
    assert FileOk(d, SectorOf(t[k]));
    forall x | 0 <= x < NUM_SECTORS && d'[x] != d[x]
      ensures !InSomeFile(d, t, x)
    {
      MetadataIsNoFile(d, t, x);
    }
    FilesUntouched(d, d', t, bits);
    SoundWithHeadersKept(d, d', t, bits);
    SoundWithoutFile(d', t, bits, k, bits');
    FilesAreListed(d, t);
    ListsWithoutOne(FilesIn(d, t), d', t, k);
    ListedAreFiles(FilesIn(d, t) - {NameKey(name)}, d', TableOn(d'));
  }

  lemma FreeingUndoesPlan(bits: seq<bool>, mid: seq<bool>, bits': seq<bool>, s: nat, data: seq<int>)
    requires |bits| == NUM_SECTORS && s == FirstClear(bits, 0)
    requires Allocated(bits[s := true], mid, data) && Deallocated(mid, bits', data + [s])
    ensures bits' == bits
  {
    forall x | 0 <= x < NUM_SECTORS
      ensures bits'[x] == bits[x]
    {
      assert x in data + [s] <==> x in data || x == s;
      if x in data {
        var i :| 0 <= i < |data| && data[i] == x;
        assert !bits[s := true][x];
      }
    }
  }

  lemma PlannedSlot(t: seq<DirectoryEntry>, t': seq<DirectoryEntry>, bits: seq<bool>, bits': seq<bool>,
                    name: CString, size: nat, h: Header)
    requires Planned(t, bits, t', bits', name, size, h) && NamesUnique(t')
    ensures IndexOf(t', NameKey(name), 0) != -1
    ensures SectorOf(t'[IndexOf(t', NameKey(name), 0)]) == FirstClear(bits, 0)
  {
    var s, slot := FirstClear(bits, 0), FreeSlot(t, 0);
    AddedEntry(t[slot], name, s);
    SlotOfKey(t', slot);
  }

  lemma RemoveFreesWhatCreateTook(d: Store, mid: Store, d': Store, name: CString, size: nat, h: Header)
    requires Consistent(d) && CreatedWith(d, mid, name, size, h)
    requires Consistent(mid) && RemovedFrom(mid, d', name)
    ensures SystemOk(d') && BitsOn(d') == BitsOn(d)
  {
    PlannedSlot(TableOn(d), TableOn(mid), BitsOn(d), BitsOn(mid), name, size, h);
    FreeingUndoesPlan(BitsOn(d), BitsOn(mid), BitsOn(d'), FirstClear(BitsOn(d), 0), DataOf(h));
  }

  /** Removing a file right after creating it gives back exactly the sectors that were free before. */
  lemma RemoveUndoesCreate(d: Store, mid: Store, d': Store, name: CString, size: nat, h: Header)
    requires Consistent(d) && CreatedWith(d, mid, name, size, h)
    requires Consistent(mid) && RemovedFrom(mid, d', name)
    ensures Consistent(d') && BitsOn(d') == BitsOn(d) && Files(d') == Files(d)
  {
    CreateRefines(d, mid, name, size, h);
    RemoveRefines(mid, d', name);
    RemoveFreesWhatCreateTook(d, mid, d', name, size, h);
    AddThenDrop(Files(d), NameKey(name), Contents(mid, h));
  }

  lemma AddThenDrop(m: map<seq<byte>, seq<byte>>, key: seq<byte>, content: seq<byte>)
    requires key !in m
    ensures m[key := content] - {key} == m
  {}
}
