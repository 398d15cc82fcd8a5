/** The file system: format, create, open and remove, each proved against the volume it leaves on disk. */
module FileSystems {
  import opened Bytes
  import opened Sectors
  import opened BitMaps
  import opened FileHeaders
  import opened OpenFiles
  import opened Directories
  import opened Volumes
  import opened Capacity

  /** BitMap.FetchFrom and BitMap.WriteBack: the words of the map are the bytes of the map file. */
  method FetchMap(freeMap: BitMap, file: OpenFile)
    requires freeMap.Valid() && freeMap.numBits == NUM_SECTORS && file.Valid()
    requires |file.Bytes()| == FREE_MAP_FILE_SIZE && freeMap.words as object != file.hdr.dataSectors
    modifies freeMap.words
    ensures freeMap.Bits() == BitsIn(file.Bytes())
  {
    var buf := new byte[FREE_MAP_FILE_SIZE];
    ghost var content := file.Bytes();
    var _ := file.ReadAt(buf, 0, FREE_MAP_FILE_SIZE, 0);
    assert buf[..] == content;
    var ws := DecodeWords(buf[..]);
    forall i | 0 <= i < freeMap.words.Length {
      freeMap.words[i] := ws[i];
    }
    assert freeMap.words[..] == ws;
  }

  method WriteBackMap(freeMap: BitMap, file: OpenFile)
    requires freeMap.Valid() && freeMap.numBits == NUM_SECTORS
    requires file.Valid() && |file.Bytes()| == FREE_MAP_FILE_SIZE
    modifies file.disk
    ensures WroteAt(old(file.disk.sectors), file.disk.sectors, file.hdr.Value(), 0, EncodeWords(freeMap.words[..]))
  {
    var _ := file.WriteAt(EncodeWords(freeMap.words[..]), 0);
  }

  lemma WrittenWhole(c: seq<byte>, from: seq<byte>)
    requires |c| == |from|
    ensures Written(c, 0, from) == from
  {}

  lemma DirectoryFlushed(d: Store, d': Store, t: seq<DirectoryEntry>)
    requires SystemOk(d) && |t| == NUM_DIR_ENTRIES && WroteAt(d, d', HeaderAt(d, DIRECTORY_SECTOR), 0, Flatten(t))
    ensures SystemOk(d') && TableOn(d') == t && BitsOn(d') == BitsOn(d)
    ensures forall x :: 0 <= x < NUM_SECTORS && x != 3 && x != 4 ==> d'[x] == d[x]
  {
    DirectorySectors(HeaderAt(d, DIRECTORY_SECTOR));
    MapSectors(HeaderAt(d, FREE_MAP_SECTOR));
    UnflattenFlatten(t);
    WrittenWhole(Contents(d, HeaderAt(d, DIRECTORY_SECTOR)), Flatten(t));
    ContentsFrame(d, d', HeaderAt(d, FREE_MAP_SECTOR));
  }

  lemma MapFlushed(d: Store, d': Store, ws: seq<word>)
    requires SystemOk(d) && 4 * |ws| == FREE_MAP_FILE_SIZE
    requires WroteAt(d, d', HeaderAt(d, FREE_MAP_SECTOR), 0, EncodeWords(ws))
    ensures SystemOk(d') && TableOn(d') == TableOn(d) && BitsOn(d') == BitsOf(ws, NUM_SECTORS)
    ensures forall x :: 0 <= x < NUM_SECTORS && x != 2 ==> d'[x] == d[x]
  {
    MapSectors(HeaderAt(d, FREE_MAP_SECTOR));
    DirectorySectors(HeaderAt(d, DIRECTORY_SECTOR));
    DecodeEncodeWords(ws);
    WrittenWhole(Contents(d, HeaderAt(d, FREE_MAP_SECTOR)), EncodeWords(ws));
    ContentsFrame(d, d', HeaderAt(d, DIRECTORY_SECTOR));
  }

  /** Whether Create can succeed: an absent name, a free directory slot, and room for header and data. */
  ghost predicate CanCreate(d: Store, name: CString, size: nat)
    requires Consistent(d)
  {
    && NameKey(name) !in Files(d)
    && FreeSlot(TableOn(d), 0) != -1
    && CountClear(BitsOn(d)) >= 1 + DivRoundUp(size, SECTOR_SIZE)
  }

  lemma RoomForHeaderAndData(bits: seq<bool>, n: nat)
    ensures var s := FirstClear(bits, 0);
            CountClear(bits) >= 1 + n <==> s != -1 && CountClear(bits[s := true]) >= n
  {
    CountZero(bits);
    if FirstClear(bits, 0) != -1 {
      CountAfterMark(bits, FirstClear(bits, 0));
    }
  }

  /** What Create tests, one thing after the other, on its copies of the directory and the map. */
  ghost predicate PlanPossible(t: seq<DirectoryEntry>, bits: seq<bool>, name: CString, size: nat) {
    var s := FirstClear(bits, 0);
    && IndexOf(t, NameKey(name), 0) == -1 && s != -1 && FreeSlot(t, 0) != -1
    && CountClear(bits[s := true]) >= DivRoundUp(size, SECTOR_SIZE)
  }

  /** Those tests decide exactly whether Create can succeed. */
  lemma CreateCondition(d: Store, name: CString, size: nat)
    requires Consistent(d)
    ensures CanCreate(d, name, size) <==> PlanPossible(TableOn(d), BitsOn(d), name, size)
  {
    KeyInTable(TableOn(d), NameKey(name));
    RoomForHeaderAndData(BitsOn(d), DivRoundUp(size, SECTOR_SIZE));
  }

  /** And it can be told from the files alone. */
  lemma CreateConditionOnFiles(d: Store, name: CString, size: nat)
    requires Consistent(d)
    ensures CanCreate(d, name, size) <==> Fits(Files(d), NameKey(name), size)
  {
    RoomIsWhatFilesLeave(d);
  }

  /** A listed file has a header sector past the metadata, so Find's -1 means that the name is absent. */
  lemma FoundSector(d: Store, key: seq<byte>)
    requires Consistent(d)
    ensures var i := IndexOf(TableOn(d), key, 0);
            && (i == -1 <==> key !in Files(d))
            && (i != -1 ==> FileOk(d, SectorOf(TableOn(d)[i])))
            && (i != -1 ==> Files(d)[key] == Contents(d, HeaderAt(d, SectorOf(TableOn(d)[i]))))
  {
    KeyInTable(TableOn(d), key);
  }

  ghost predicate SectorsValid(t: seq<DirectoryEntry>) {
    forall i :: 0 <= i < |t| && InUse(t[i]) ==> SectorOf(t[i]) >= 0
  }

  lemma HeaderSectorsAreValid(d: Store)
    requires Consistent(d)
    ensures SectorsValid(TableOn(d))
  {
    forall i | 0 <= i < NUM_DIR_ENTRIES && InUse(TableOn(d)[i])
      ensures SectorOf(TableOn(d)[i]) >= 0
    {
      assert FileOk(d, SectorOf(TableOn(d)[i]));
    }
  }

  /** Every sector Remove frees is marked: the assertion in Deallocate cannot fail. */
  lemma ListedSectorsAreMarked(d: Store, key: seq<byte>)
    requires Consistent(d) && IndexOf(TableOn(d), key, 0) != -1
    ensures var s := SectorOf(TableOn(d)[IndexOf(TableOn(d), key, 0)]);
            FileOk(d, s) && forall x :: x in DataOf(HeaderAt(d, s)) ==> BitsOn(d)[x]
  {
    var t, bits := TableOn(d), BitsOn(d);
    var k := IndexOf(t, key, 0);
    var s := SectorOf(t[k]);
    assert FileOk(d, s);
    forall x | x in DataOf(HeaderAt(d, s))
      ensures bits[x]
    {
      assert Owns(d, s, x);
      assert InSomeFile(d, t, x);
    }
  }

  // ---- Runs ----

  /** A write comes from a file that was opened as `key` and fetched the header `h` then. */
  datatype Operation =
    | Create(name: CString, size: nat)
    | Remove(name: CString)
    | Write(key: seq<byte>, h: Header, position: nat, data: seq<byte>)

  /** One operation on the disk. */
  ghost predicate Step(d: Store, op: Operation, d': Store)
    requires Consistent(d)
  {
    match op
    case Create(name, size) =>
      if CanCreate(d, name, size) then exists h :: CreatedWith(d, d', name, size, h) else d' == d
    case Remove(name) =>
      if NameKey(name) in Files(d) then RemovedFrom(d, d', name) else d' == d
    case Write(_, h, position, data) => WellFormed(h) && WroteAt(d, d', h, position, data)
  }

  /** Creates and removes always are; writes as Volumes says. */
  ghost predicate Safe(d: Store, op: Operation)
    requires Consistent(d)
  {
    op.Write? ==> WellFormed(op.h) && SafeWrite(d, op.key, op.h, op.position, |op.data|)
  }

  /** The same operation on a plain map from names to contents: a file is created exactly if it fits, and a new
    file's contents are unspecified. */
  ghost predicate MapStep(m: map<seq<byte>, seq<byte>>, op: Operation, m': map<seq<byte>, seq<byte>>) {
    match op
    case Create(name, size) =>
      if Fits(m, NameKey(name), size) then
        NameKey(name) in m' && |m'[NameKey(name)]| == size && m' == m[NameKey(name) := m'[NameKey(name)]]
      else m' == m
    case Remove(name) => m' == m - {NameKey(name)}
    case Write(key, _, position, data) => key in m && m' == m[key := Written(m[key], position, data)]
  }

  /** A write comes from a file that is still there as it was opened. */
  ghost predicate Current(d: Store, op: Operation)
    requires Consistent(d)
  {
    op.Write? ==> ListedAs(d, op.key, op.h)
  }

  /** What an operation means: its step on the map; but a write through a file that is no longer there changes
    nothing. */
  ghost predicate Means(d: Store, op: Operation, d': Store)
    requires Consistent(d) && Consistent(d')
  {
    if Current(d, op) then MapStep(Files(d), op, Files(d')) else Files(d') == Files(d)
  }

  lemma StepRefines(d: Store, op: Operation, d': Store)
    requires Consistent(d) && Step(d, op, d') && Safe(d, op)
    ensures Consistent(d') && Means(d, op, d')
  {
    match op
    case Create(name, size) => CreateStepRefines(d, name, size, d');
    case Remove(name) =>
      if NameKey(name) in Files(d) {
        RemoveRefines(d, d', name);
      }
    case Write(key, h, position, data) =>
      SafeWriteRefines(d, d', key, h, position, data);
      if ListedAs(d, key, h) {
        ListedFile(d, key, h);
      }
  }

  lemma CreateStepRefines(d: Store, name: CString, size: nat, d': Store)
    requires Consistent(d) && Step(d, Create(name, size), d')
    ensures Consistent(d') && MapStep(Files(d), Create(name, size), Files(d'))
  {
    CreateConditionOnFiles(d, name, size);
    if CanCreate(d, name, size) {
      var h :| CreatedWith(d, d', name, size, h);
      CreateRefines(d, d', name, size, h);
    }
  }

  ghost predicate StepAt(ds: seq<Store>, ops: seq<Operation>, i: nat)
    requires |ds| == |ops| + 1 && i < |ops|
  {
    Consistent(ds[i]) ==> Step(ds[i], ops[i], ds[i + 1])
  }

  ghost predicate SafeAt(ds: seq<Store>, ops: seq<Operation>, i: nat)
    requires |ds| == |ops| + 1 && i < |ops|
  {
    Consistent(ds[i]) ==> Safe(ds[i], ops[i])
  }

  /** A run: from a consistent disk, one operation after another. */
  ghost predicate Run(ds: seq<Store>, ops: seq<Operation>) {
    && |ds| == |ops| + 1 && Consistent(ds[0])
    && forall i :: 0 <= i < |ops| ==> StepAt(ds, ops, i)
  }

  ghost predicate SafeUpTo(ds: seq<Store>, ops: seq<Operation>, n: nat)
    requires Run(ds, ops) && n <= |ops|
  {
    forall i :: 0 <= i < n ==> SafeAt(ds, ops, i)
  }

  lemma {:induction false} SafeRunsAreConsistent(ds: seq<Store>, ops: seq<Operation>, n: nat)
    requires Run(ds, ops) && n <= |ops| && SafeUpTo(ds, ops, n)
    ensures Consistent(ds[n])
    decreases n
  {
    if n > 0 {
      SafeRunsAreConsistent(ds, ops, n - 1);
      assert StepAt(ds, ops, n - 1) && SafeAt(ds, ops, n - 1);
      StepRefines(ds[n - 1], ops[n - 1], ds[n]);
    }
  }

  lemma StillListed(d: Store, d': Store, key: seq<byte>, h: Header)
    requires Consistent(d) && Consistent(d') && TableOn(d') == TableOn(d) && HeadersKept(d, d', TableOn(d))
    ensures ListedAs(d', key, h) <==> ListedAs(d, key, h)
  {
    KeyInTable(TableOn(d), key);
  }

  /** When a write may be made, and what it has done then: it is a safe step, and the file is listed as before. */
  ghost predicate MayWrite(d: Store, key: seq<byte>, h: Header, position: nat, count: nat) {
    Consistent(d) && WellFormed(h) && SafeWrite(d, key, h, position, count)
  }

  ghost predicate WroteSafely(d: Store, d': Store, key: seq<byte>, h: Header, position: nat, data: seq<byte>) {
    && Consistent(d) && Consistent(d') && Step(d, Write(key, h, position, data), d')
    && (ListedAs(d', key, h) <==> ListedAs(d, key, h))
  }

  /** What holds of the header of a file of the volume from the time it is opened, whatever happens to the file. */
  ghost predicate PastMetadata(h: Header) {
    WellFormed(h) && forall x :: x in DataOf(h) ==> x >= SYSTEM_SECTORS
  }

  lemma WritesPastMetadata(h: Header, position: nat, count: nat)
    requires PastMetadata(h)
    ensures forall x :: x in WrittenSectors(h, position, count) ==> x >= SYSTEM_SECTORS
  {
    forall x | x in WrittenSectors(h, position, count)
      ensures x >= SYSTEM_SECTORS
    {
      assert x in DataOf(h);
    }
  }

  lemma WriteKeepsVolume(d: Store, d': Store, key: seq<byte>, h: Header, position: nat, data: seq<byte>)
    requires MayWrite(d, key, h, position, |data|) && WroteAt(d, d', h, position, data)
    ensures WroteSafely(d, d', key, h, position, data)
  {
    SafeWriteRefines(d, d', key, h, position, data);
    StillListed(d, d', key, h);
  }

  // Open files stay current

  predicate Removes(op: Operation, key: seq<byte>) {
    op.Remove? && NameKey(op.name) == key
  }

  /** As long as a file is not removed, its header stays where and as it is, whatever else is created, removed or
    written. */
  lemma HeaderStays(d: Store, op: Operation, d': Store, key: seq<byte>, h: Header)
    requires Consistent(d) && Step(d, op, d') && Safe(d, op) && ListedAs(d, key, h) && !Removes(op, key)
    ensures Consistent(d') && ListedAs(d', key, h)
  {
    StepRefines(d, op, d');
    ListedFile(d, key, h);
    match op
    case Create(name, size) =>
      if CanCreate(d, name, size) {
        var h' :| CreatedWith(d, d', name, size, h');
        HeaderStaysOnCreate(d, d', name, size, h', key, h);
      }
    case Remove(name) =>
      if NameKey(name) in Files(d) {
        HeaderStaysOnRemove(d, d', name, key, h);
      }
    case Write(key', h', position, data) =>
      SafeWriteRefines(d, d', key', h', position, data);
  }

  lemma HeaderStaysOnCreate(d: Store, d': Store, name: CString, size: nat, h': Header, key: seq<byte>, h: Header)
    requires Consistent(d) && CreatedWith(d, d', name, size, h') && Consistent(d') && ListedAs(d, key, h)
    ensures ListedAs(d', key, h)
  {
    var t, t' := TableOn(d), TableOn(d');
    var k := IndexOf(t, key, 0);
    ListedFile(d, key, h);
    assert t'[k] == t[k];
    SlotOfKey(t', k);
    KeyInTable(t', key);
    var s := SectorOf(t[k]);
    assert Owns(d, s, s) && InSomeFile(d, t, s);
    MarkedIsInUse(d, s);
  }

  lemma HeaderStaysOnRemove(d: Store, d': Store, name: CString, key: seq<byte>, h: Header)
    requires Consistent(d) && RemovedFrom(d, d', name) && Consistent(d') && ListedAs(d, key, h) && NameKey(name) != key
    ensures ListedAs(d', key, h)
  {
    var t, t' := TableOn(d), TableOn(d');
    var k := IndexOf(t, key, 0);
    ListedFile(d, key, h);
    assert t'[k] == t[k];
    SlotOfKey(t', k);
    KeyInTable(t', key);
  }

  /** The file was listed under `key` with the header `h` at step `j`, and has not been removed since. */
  ghost predicate OpenSince(ds: seq<Store>, ops: seq<Operation>, j: nat, i: nat, key: seq<byte>, h: Header)
    requires Run(ds, ops)
  {
    && j <= i <= |ops| && Consistent(ds[j]) && ListedAs(ds[j], key, h)
    && forall m :: j <= m < i ==> !Removes(ops[m], key)
  }

  lemma OpenOneStepLonger(ds: seq<Store>, ops: seq<Operation>, i: nat, d: Store, d': Store, key: seq<byte>, h: Header)
    requires Run(ds, ops) && i < |ops| && SafeAt(ds, ops, i) && !Removes(ops[i], key)
    requires d == ds[i] && d' == ds[i + 1] && Consistent(d) && ListedAs(d, key, h)
    ensures Consistent(d') && ListedAs(d', key, h)
  {
    assert StepAt(ds, ops, i);
    HeaderStays(d, ops[i], d', key, h);
  }

  lemma {:induction false} OpenFilesStayCurrent(ds: seq<Store>, ops: seq<Operation>, j: nat, i: nat, key: seq<byte>,
                                                h: Header)
    requires Run(ds, ops) && OpenSince(ds, ops, j, i, key, h) && SafeUpTo(ds, ops, i)
    ensures Consistent(ds[i]) ==> ListedAs(ds[i], key, h)
    decreases i - j
  {
    if j < i {
      SafeRunsAreConsistent(ds, ops, i - 1);
      OpenFilesStayCurrent(ds, ops, j, i - 1, key, h);
      OpenOneStepLonger(ds, ops, i - 1, ds[i - 1], ds[i], key, h);
    }
  }

  ghost predicate NotStale(ds: seq<Store>, ops: seq<Operation>, i: nat)
    requires Run(ds, ops) && i < |ops|
  {
    ops[i].Write? ==> exists j :: OpenSince(ds, ops, j, i, ops[i].key, ops[i].h)
  }

  /** Every write of the run comes from a file that was opened earlier and not removed since. */
  ghost predicate NoStaleWrites(ds: seq<Store>, ops: seq<Operation>)
    requires Run(ds, ops)
  {
    forall i :: 0 <= i < |ops| ==> NotStale(ds, ops, i)
  }

  lemma OpenWriteIsCurrent(ds: seq<Store>, ops: seq<Operation>, i: nat)
    requires Run(ds, ops) && i < |ops| && NotStale(ds, ops, i) && SafeUpTo(ds, ops, i)
    ensures Consistent(ds[i]) && Current(ds[i], ops[i])
  {
    SafeRunsAreConsistent(ds, ops, i);
    if ops[i].Write? {
      var j :| OpenSince(ds, ops, j, i, ops[i].key, ops[i].h);
      OpenFilesStayCurrent(ds, ops, j, i, ops[i].key, ops[i].h);
    }
  }

  lemma CurrentIsSafe(d: Store, op: Operation)
    requires Consistent(d) && Current(d, op)
    ensures Safe(d, op)
  {
    if op.Write? {
      ListedFile(d, op.key, op.h);
    }
  }

  lemma {:induction false} OpenWritesAreSafe(ds: seq<Store>, ops: seq<Operation>, n: nat)
    requires Run(ds, ops) && NoStaleWrites(ds, ops) && n <= |ops|
    ensures SafeUpTo(ds, ops, n)
    decreases n
  {
    if n > 0 {
      OpenWritesAreSafe(ds, ops, n - 1);
      OpenWriteIsSafe(ds, ops, n - 1);
    }
  }

  lemma OpenWriteIsSafe(ds: seq<Store>, ops: seq<Operation>, i: nat)
    requires Run(ds, ops) && i < |ops| && NotStale(ds, ops, i) && SafeUpTo(ds, ops, i)
    ensures SafeAt(ds, ops, i)
  {
    OpenWriteIsCurrent(ds, ops, i);
    CurrentIsSafe(ds[i], ops[i]);
  }

  /** Over any run of creates, removes and writes through open files that have not been removed, the disk refines a
    map from names to byte sequences, and every write reaches the file it was meant for. */
  lemma RunRefinesMap(ds: seq<Store>, ops: seq<Operation>, i: nat)
    requires Run(ds, ops) && NoStaleWrites(ds, ops) && i <= |ops|
    ensures Consistent(ds[i])
    ensures i < |ops| ==> Consistent(ds[i + 1]) && MapStep(Files(ds[i]), ops[i], Files(ds[i + 1]))
  {
    OpenWritesAreSafe(ds, ops, |ops|);
    SafeRunsAreConsistent(ds, ops, i);
    if i < |ops| {
      assert NotStale(ds, ops, i);
      OpenWriteIsCurrent(ds, ops, i);
      RunStepMeans(ds, ops, i);
    }
  }

  lemma RunStepMeans(ds: seq<Store>, ops: seq<Operation>, i: nat)
    requires Run(ds, ops) && i < |ops| && SafeAt(ds, ops, i) && Consistent(ds[i])
    ensures Consistent(ds[i + 1]) && Means(ds[i], ops[i], ds[i + 1])
  {
    assert StepAt(ds, ops, i);
    StepRefines(ds[i], ops[i], ds[i + 1]);
  }

  /** The same with writes through removed files, as long as the sectors they reach are not in use again. */
  lemma SafeRunRefinesMap(ds: seq<Store>, ops: seq<Operation>, i: nat)
    requires Run(ds, ops) && SafeUpTo(ds, ops, |ops|) && i < |ops|
    ensures Consistent(ds[i]) && Consistent(ds[i + 1]) && Means(ds[i], ops[i], ds[i + 1])
  {
    SafeRunsAreConsistent(ds, ops, i);
    RunStepMeans(ds, ops, i);
  }

  // A write that hits another file

  lemma FirstPick(bits: seq<bool>, a: seq<bool>, b: seq<bool>, picked: seq<int>, picked': seq<int>)
    requires Allocated(bits, a, picked) && Allocated(bits, b, picked') && picked != [] && picked' != []
    ensures picked[0] == picked'[0]
  {
    assert picked[..0] == [] == picked'[..0];
  }

  lemma CreatedIsListed(d: Store, d': Store, name: CString, size: nat, h: Header)
    requires Consistent(d) && CreatedWith(d, d', name, size, h)
    ensures Consistent(d') && ListedAs(d', NameKey(name), h)
    ensures forall x :: x in DataOf(h) ==> BitsOn(d')[x]
  {
    CreateRefines(d, d', name, size, h);
    PlannedSlot(TableOn(d), TableOn(d'), BitsOn(d), BitsOn(d'), name, size, h);
  }

  /** Create `a`, remove it, create `b`: the first sector of `b` is the one `a` had. */
  lemma SectorsAreReused(d: Store, d1: Store, d2: Store, d3: Store, a: CString, b: CString,
                         sizeA: nat, sizeB: nat, hA: Header, hB: Header)
    requires Consistent(d) && CreatedWith(d, d1, a, sizeA, hA) && 0 < sizeA
    requires Consistent(d1) && RemovedFrom(d1, d2, a)
    requires Consistent(d2) && CreatedWith(d2, d3, b, sizeB, hB) && 0 < sizeB
    ensures hA.numSectors > 0 && hB.numSectors > 0 && hA.dataSectors[0] == hB.dataSectors[0]
  {
    RemoveFreesWhatCreateTook(d, d1, d2, a, sizeA, hA);
    SectorsCoverBytes(sizeA);
    SectorsCoverBytes(sizeB);
    FirstPick(BitsOn(d)[FirstClear(BitsOn(d), 0) := true], BitsOn(d1), BitsOn(d3), DataOf(hA), DataOf(hB));
  }

  /** A write to the first byte through a header that shares its first sector with a listed file. */
  lemma SharedSectorWrite(d: Store, d': Store, key: seq<byte>, h: Header, hA: Header, x: byte)
    requires Consistent(d) && ListedAs(d, key, h) && WellFormed(h) && h.numBytes > 0
    requires WellFormed(hA) && hA.numBytes > 0 && hA.dataSectors[0] == h.dataSectors[0] && WroteAt(d, d', hA, 0, [x])
    ensures Consistent(d') && key in Files(d') && |Files(d')[key]| == h.numBytes && Files(d')[key][0] == x
  {
    FirstSectorOnly(hA, h);
    DataChangeRefines(d, d', key, h);
    WrittenByteIs(d, d', hA, 0, [x], 0);
    FirstByte(d', h);
  }

  lemma FirstByte(d: Store, h: Header)
    requires WellFormed(h) && h.numBytes > 0
    ensures h.numSectors > 0 && Contents(d, h)[0] == d[h.dataSectors[0]][0]
  {
    SectorsCoverBytes(h.numBytes);
  }

  /** Create `a` and open it, which fetches the header `h`, remove it, create `b`, and write a byte through the open
    file. */
  ghost predicate StaleRun(d: Store, d1: Store, d2: Store, d3: Store, d4: Store,
                           a: CString, b: CString, sizeA: nat, sizeB: nat, h: Header, x: byte) {
    && Consistent(d) && CanCreate(d, a, sizeA) && sizeA > 0 && Step(d, Create(a, sizeA), d1)
    && StaleSteps(d1, d2, d3, d4, a, b, sizeB, h, x)
  }

  ghost predicate StaleSteps(d1: Store, d2: Store, d3: Store, d4: Store,
                             a: CString, b: CString, sizeB: nat, h: Header, x: byte) {
    && sizeB > 0
    && (Consistent(d1) ==> ListedAs(d1, NameKey(a), h) && Step(d1, Remove(a), d2))
    && (Consistent(d2) ==> CanCreate(d2, b, sizeB) && Step(d2, Create(b, sizeB), d3))
    && (Consistent(d3) ==> Step(d3, Write(NameKey(a), h, 0, [x]), d4))
  }

  lemma StaleRunOverwrites(d: Store, d1: Store, d2: Store, d3: Store, d4: Store,
                           a: CString, b: CString, sizeA: nat, sizeB: nat, h: Header, x: byte)
    requires StaleRun(d, d1, d2, d3, d4, a, b, sizeA, sizeB, h, x)
    ensures Consistent(d3) && NameKey(b) in Files(d3)
    ensures Consistent(d4) && NameKey(b) in Files(d4) && |Files(d4)[NameKey(b)]| == sizeB
    ensures Files(d4)[NameKey(b)][0] == x
  {
    var hB := RecreatedStep(d, d1, d2, d3, a, b, sizeA, sizeB, h);
    SharedSectorWrite(d3, d4, NameKey(b), hB, h, x);
  }

  /** Why it matters that a file is not removed while it is open: in every such run the byte is in the end the first
    byte of `b`. */
  lemma StaleWriteHitsAnotherFile(d: Store, d1: Store, d2: Store, d3: Store, d4: Store,
                                  a: CString, b: CString, sizeA: nat, sizeB: nat, hA: Header, x: byte)
    requires Run([d, d1, d2, d3, d4], [Create(a, sizeA), Remove(a), Create(b, sizeB), Write(NameKey(a), hA, 0, [x])])
    requires CanCreate(d, a, sizeA) && sizeA > 0 && sizeB > 0
    requires Consistent(d1) ==> ListedAs(d1, NameKey(a), hA)
    requires Consistent(d2) ==> CanCreate(d2, b, sizeB)
    ensures Consistent(d3) && NameKey(b) in Files(d3)
    ensures Consistent(d4) && NameKey(b) in Files(d4) && |Files(d4)[NameKey(b)]| == sizeB
    ensures Files(d4)[NameKey(b)][0] == x
  {
    var ds := [d, d1, d2, d3, d4];
    var ops := [Create(a, sizeA), Remove(a), Create(b, sizeB), Write(NameKey(a), hA, 0, [x])];
    StepIs(ds, ops, 0, d, Create(a, sizeA), d1);
    StepIs(ds, ops, 1, d1, Remove(a), d2);
    StepIs(ds, ops, 2, d2, Create(b, sizeB), d3);
    StepIs(ds, ops, 3, d3, Write(NameKey(a), hA, 0, [x]), d4);
    StaleRunOverwrites(d, d1, d2, d3, d4, a, b, sizeA, sizeB, hA, x);
  }

  lemma StepIs(ds: seq<Store>, ops: seq<Operation>, i: nat, d: Store, op: Operation, d': Store)
    requires Run(ds, ops) && i < |ops| && ds[i] == d && ops[i] == op && ds[i + 1] == d'
    ensures Consistent(d) ==> Step(d, op, d')
  {
    assert StepAt(ds, ops, i);
  }

  lemma RecreatedStep(d: Store, d1: Store, d2: Store, d3: Store, a: CString, b: CString, sizeA: nat, sizeB: nat,
                      hA: Header)
    returns (hB: Header)
    requires Consistent(d) && CanCreate(d, a, sizeA) && sizeA > 0 && Step(d, Create(a, sizeA), d1)
    requires Consistent(d1) ==> ListedAs(d1, NameKey(a), hA) && Step(d1, Remove(a), d2)
    requires Consistent(d2) ==> CanCreate(d2, b, sizeB) && sizeB > 0 && Step(d2, Create(b, sizeB), d3)
    ensures Consistent(d3) && ListedAs(d3, NameKey(b), hB) && WellFormed(hA) && WellFormed(hB)
    ensures hA.numBytes == sizeA && hB.numBytes == sizeB && hA.dataSectors[0] == hB.dataSectors[0]
  {
    var h := CreateStep(d, d1, a, sizeA);
    RemoveStep(d1, d2, a, h);
    hB := CreateStep(d2, d3, b, sizeB);
    SectorsAreReused(d, d1, d2, d3, a, b, sizeA, sizeB, h, hB);
  }

  lemma CreateStep(d: Store, d': Store, name: CString, size: nat) returns (h: Header)
    requires Consistent(d) && CanCreate(d, name, size) && Step(d, Create(name, size), d')
    ensures CreatedWith(d, d', name, size, h) && Consistent(d') && ListedAs(d', NameKey(name), h)
    ensures WellFormed(h) && h.numBytes == size
  {
    h :| CreatedWith(d, d', name, size, h);
    CreatedIsListed(d, d', name, size, h);
  }

  lemma RemoveStep(d: Store, d': Store, name: CString, h: Header)
    requires Consistent(d) && ListedAs(d, NameKey(name), h) && Step(d, Remove(name), d')
    ensures RemovedFrom(d, d', name) && Consistent(d')
  {
    RemoveRefines(d, d', name);
  }

  lemma FirstSectorOnly(hA: Header, hB: Header)
    requires WellFormed(hA) && hA.numBytes > 0 && WellFormed(hB)
    requires hB.numSectors > 0 && hA.dataSectors[0] == hB.dataSectors[0]
    ensures forall x :: x in WrittenSectors(hA, 0, 1) ==> x in DataOf(hB)
  {
    assert DataOf(hB)[0] == hB.dataSectors[0];
  }

  lemma RemoveCompleted(d: Store, d': Store, name: CString)
    requires Consistent(d) && SystemOk(d') && RemovedFrom(d, d', name)
    ensures Consistent(d') && Step(d, Operation.Remove(name), d')
  {
    FoundSector(d, NameKey(name));
    RemoveRefines(d, d', name);
  }

  lemma AtLeastTwoClear(bits: seq<bool>, i: nat, j: nat)
    requires i < |bits| && j < |bits| && i != j && !bits[i] && !bits[j]
    ensures CountClear(bits) >= 2
  {
    CountAfterMark(bits, i);
    assert !bits[i := true][j];
    CountZero(bits[i := true]);
  }

  /** On a map with exactly the sectors below `n` in use, allocation hands out the next sectors in order. */
  lemma PicksInOrder(bits: seq<bool>, bits': seq<bool>, picked: seq<int>, n: nat)
    requires n + |picked| <= |bits| && forall x :: 0 <= x < |bits| ==> (bits[x] <==> x < n)
    requires Allocated(bits, bits', picked)
    ensures forall i :: 0 <= i < |picked| ==> picked[i] == n + i
    ensures forall x :: 0 <= x < |bits| ==> (bits'[x] <==> x < n + |picked|)
  {
    PicksInOrderUpTo(bits, bits', picked, n, |picked|);
    forall x | n <= x < n + |picked|
      ensures x in picked
    {
      assert picked[x - n] == x;
    }
  }

  lemma {:induction false} PicksInOrderUpTo(bits: seq<bool>, bits': seq<bool>, picked: seq<int>, n: nat, k: nat)
    requires k <= |picked| && n + |picked| <= |bits| && forall x :: 0 <= x < |bits| ==> (bits[x] <==> x < n)
    requires Allocated(bits, bits', picked)
    ensures forall i :: 0 <= i < k ==> picked[i] == n + i
    decreases k
  {
    if k > 0 {
      PicksInOrderUpTo(bits, bits', picked, n, k - 1);
      var last, s, earlier := picked[k - 1], n + k - 1, picked[..k - 1];
      forall x | n <= x < s
        ensures x in earlier
      {
        assert earlier[x - n] == x;
      }
      assert s !in earlier && last !in earlier && n <= last;
      var taken := bits[s] || s in earlier;
      assert s < last ==> taken;
    }
  }

  /** A disk with both metadata files in place, every listed slot free and only their sectors marked. */
  lemma FreshlyFormatted(d: Store)
    requires SystemOk(d)
    requires forall i :: 0 <= i < NUM_DIR_ENTRIES ==> !InUse(TableOn(d)[i])
    requires forall x :: 0 <= x < NUM_SECTORS ==> (BitsOn(d)[x] <==> x < SYSTEM_SECTORS)
    ensures Consistent(d) && Files(d) == map[]
  {
    FormattedIsSound(d, TableOn(d), BitsOn(d));
  }

  lemma FormattedIsSound(d: Store, t: seq<DirectoryEntry>, bits: seq<bool>)
    requires |bits| == NUM_SECTORS && forall i :: 0 <= i < |t| ==> !InUse(t[i])
    requires forall x :: 0 <= x < NUM_SECTORS ==> (bits[x] <==> x < SYSTEM_SECTORS)
    ensures Sound(d, t, bits) && FilesIn(d, t) == map[]
  {
    assert KeysOf(t) == {};
  }

  /** The first half of formatting: reserves the metadata sectors and stores the two headers. */
  method FormatHeaders(freeMap: BitMap, disk: SynchDisk)
    requires freeMap.Valid() && freeMap.numBits == NUM_SECTORS
    requires forall x :: 0 <= x < NUM_SECTORS ==> !freeMap.Bits()[x]
    modifies disk, freeMap.words
    ensures SystemOk(disk.sectors)
    ensures forall x :: 0 <= x < NUM_SECTORS ==> (freeMap.Bits()[x] <==> x < SYSTEM_SECTORS)
  {
    var mapHdr := new FileHeader();
    var dirHdr := new FileHeader();
    AllocateMetadata(freeMap, mapHdr, dirHdr);
    mapHdr.WriteBack(disk, FREE_MAP_SECTOR);
    dirHdr.WriteBack(disk, DIRECTORY_SECTOR);
    DecodeEncodeHeader(mapHdr.Value());
    DecodeEncodeHeader(dirHdr.Value());
  }

  method AllocateMetadata(freeMap: BitMap, mapHdr: FileHeader, dirHdr: FileHeader)
    requires freeMap.Valid() && freeMap.numBits == NUM_SECTORS && mapHdr.Valid() && dirHdr.Valid()
    requires freeMap.words as object != mapHdr.dataSectors && freeMap.words as object != dirHdr.dataSectors
    requires mapHdr != dirHdr && mapHdr.dataSectors != dirHdr.dataSectors
    requires forall x :: 0 <= x < NUM_SECTORS ==> !freeMap.Bits()[x]
    modifies freeMap.words, mapHdr, mapHdr.dataSectors, dirHdr, dirHdr.dataSectors
    ensures IsMapHeader(mapHdr.Value()) && IsDirectoryHeader(dirHdr.Value())
    ensures forall x :: 0 <= x < NUM_SECTORS ==> (freeMap.Bits()[x] <==> x < SYSTEM_SECTORS)
  {
    freeMap.Mark(FREE_MAP_SECTOR);
    freeMap.Mark(DIRECTORY_SECTOR);
    ghost var bits := freeMap.Bits();
    AtLeastTwoClear(bits, 2, 3);
    var mapOk := mapHdr.Allocate(freeMap, FREE_MAP_FILE_SIZE);
    assert mapOk && mapHdr.numSectors == 1;
    ghost var bits1 := freeMap.Bits();
    PicksInOrder(bits, bits1, mapHdr.dataSectors[..1], 2);
    assert mapHdr.Value().dataSectors[0] == mapHdr.dataSectors[..1][0];
    AtLeastTwoClear(bits1, 3, 4);
    var dirOk := dirHdr.Allocate(freeMap, DIRECTORY_FILE_SIZE);
    assert dirOk && dirHdr.numSectors == 2;
    PicksInOrder(bits1, freeMap.Bits(), dirHdr.dataSectors[..2], 3);
    assert dirHdr.Value().dataSectors[0] == dirHdr.dataSectors[..2][0];
    assert dirHdr.Value().dataSectors[1] == dirHdr.dataSectors[..2][1];
  }

  /** Create's tests and its changes to the copies in memory, before anything is written back. */
  method PlanCreate(directory: Directory, freeMap: BitMap, name: CString, initialSize: nat)
    returns (success: bool, sector: int, hdr: FileHeader)
    requires freeMap.Valid() && freeMap.numBits == NUM_SECTORS && initialSize < 0x8000_0000
    requires initialSize <= MAX_FILE_SIZE || !PlanPossible(directory.table[..], freeMap.Bits(), name, initialSize)
    requires SectorsValid(directory.table[..])
    modifies directory.table, freeMap.words
    ensures fresh(hdr) && fresh(hdr.dataSectors) && hdr.Valid()
    ensures success <==> PlanPossible(old(directory.table[..]), old(freeMap.Bits()), name, initialSize)
    ensures success ==> sector == FirstClear(old(freeMap.Bits()), 0)
    ensures success ==> Planned(old(directory.table[..]), old(freeMap.Bits()), directory.table[..], freeMap.Bits(),
                                name, initialSize, hdr.Value())
  {
    hdr := new FileHeader();
    success, sector := false, -1;
    var found := directory.Find(name);
    if found == -1 {
      sector := freeMap.Find();
      if sector != -1 {
        var added := directory.Add(name, sector);
        if added {
          success := hdr.Allocate(freeMap, initialSize);
          if success {
            assert hdr.dataSectors[..hdr.numSectors] == DataOf(hdr.Value());
          }
        }
      }
    }
  }

  class FileSystem {
    const disk: SynchDisk
    const freeMapFile: OpenFile
    const directoryFile: OpenFile

    /** The two metadata files stay open; their headers in memory are the ones on disk. */
    ghost predicate Opened()
      reads disk, freeMapFile, freeMapFile.hdr, freeMapFile.hdr.dataSectors
      reads directoryFile, directoryFile.hdr, directoryFile.hdr.dataSectors
    {
      && SystemOk(disk.sectors)
      && freeMapFile.disk == disk && freeMapFile.Valid()
      && directoryFile.disk == disk && directoryFile.Valid()
      && freeMapFile.hdr.Value() == HeaderAt(disk.sectors, FREE_MAP_SECTOR)
      && directoryFile.hdr.Value() == HeaderAt(disk.sectors, DIRECTORY_SECTOR)
    }

    ghost predicate Valid()
      reads disk, freeMapFile, freeMapFile.hdr, freeMapFile.hdr.dataSectors
      reads directoryFile, directoryFile.hdr, directoryFile.hdr.dataSectors
    {
      Opened() && Consistent(disk.sectors)
    }

    /** Formats the disk, or opens a disk formatted before. */
    constructor (disk: SynchDisk, format: bool)
      requires !format ==> Consistent(disk.sectors)
      modifies disk
      ensures Valid() && this.disk == disk
      ensures fresh(freeMapFile) && fresh(freeMapFile.hdr) && fresh(freeMapFile.hdr.dataSectors)
      ensures fresh(directoryFile) && fresh(directoryFile.hdr) && fresh(directoryFile.hdr.dataSectors)
      ensures format ==> Files(disk.sectors) == map[]
      ensures !format ==> disk.sectors == old(disk.sectors)
    {
      var freeMap := new BitMap(NUM_SECTORS);
      var directory := new Directory(NUM_DIR_ENTRIES);
      if format {
        FormatHeaders(freeMap, disk);
      }
      ghost var bits := freeMap.Bits();
      freeMapFile := new OpenFile(disk, FREE_MAP_SECTOR);
      directoryFile := new OpenFile(disk, DIRECTORY_SECTOR);
      this.disk := disk;
      new;
      if format {
        Flush(directory, freeMap, false);
        assert freeMap.Bits() == bits;
        assert forall i :: 0 <= i < NUM_DIR_ENTRIES ==> TableOn(disk.sectors)[i] == directory.table[i];
        FreshlyFormatted(disk.sectors);
      }
    }

    method LoadDirectory() returns (directory: Directory)
      requires Opened()
      ensures fresh(directory) && fresh(directory.table) && directory.table[..] == TableOn(disk.sectors)
    {
      directory := new Directory(NUM_DIR_ENTRIES);
      directory.FetchFrom(directoryFile);
    }

    method LoadMap() returns (freeMap: BitMap)
      requires Opened()
      ensures fresh(freeMap) && fresh(freeMap.words) && freeMap.Valid() && freeMap.numBits == NUM_SECTORS
      ensures freeMap.Bits() == BitsOn(disk.sectors)
    {
      freeMap := new BitMap(NUM_SECTORS);
      FetchMap(freeMap, freeMapFile);
    }

    /** Writes both metadata files back. */
    method Flush(directory: Directory, freeMap: BitMap, directoryFirst: bool)
      requires Opened() && directory.table.Length == NUM_DIR_ENTRIES
      requires freeMap.Valid() && freeMap.numBits == NUM_SECTORS
      modifies disk
      ensures Opened() && TableOn(disk.sectors) == directory.table[..] && BitsOn(disk.sectors) == freeMap.Bits()
      ensures forall x :: SYSTEM_SECTORS <= x < NUM_SECTORS ==> disk.sectors[x] == old(disk.sectors)[x]
    {
      if directoryFirst {
        FlushDirectory(directory);
        FlushMap(freeMap);
      } else {
        FlushMap(freeMap);
        FlushDirectory(directory);
      }
    }

    method FlushDirectory(directory: Directory)
      requires Opened() && directory.table.Length == NUM_DIR_ENTRIES
      modifies disk
      ensures Opened() && TableOn(disk.sectors) == directory.table[..]
      ensures BitsOn(disk.sectors) == old(BitsOn(disk.sectors))
      ensures forall x :: SYSTEM_SECTORS <= x < NUM_SECTORS ==> disk.sectors[x] == old(disk.sectors)[x]
    {
      ghost var d := disk.sectors;
      directory.WriteBack(directoryFile);
      DirectoryFlushed(d, disk.sectors, directory.table[..]);
    }

    method FlushMap(freeMap: BitMap)
      requires Opened() && freeMap.Valid() && freeMap.numBits == NUM_SECTORS
      modifies disk
      ensures Opened() && TableOn(disk.sectors) == old(TableOn(disk.sectors)) && BitsOn(disk.sectors) == freeMap.Bits()
      ensures forall x :: SYSTEM_SECTORS <= x < NUM_SECTORS ==> disk.sectors[x] == old(disk.sectors)[x]
    {
      ghost var d := disk.sectors;
      WriteBackMap(freeMap, freeMapFile);
      MapFlushed(d, disk.sectors, freeMap.words[..]);
    }

    method Create(name: CString, initialSize: nat) returns (success: bool)
      requires Valid() && initialSize < 0x8000_0000
      requires initialSize <= MAX_FILE_SIZE || !CanCreate(disk.sectors, name, initialSize)
      modifies disk
      ensures Valid()
      ensures success <==> old(CanCreate(disk.sectors, name, initialSize))
      ensures success <==> Fits(old(Files(disk.sectors)), NameKey(name), initialSize)
      ensures !success ==> disk.sectors == old(disk.sectors)
      ensures Step(old(disk.sectors), Operation.Create(name, initialSize), disk.sectors)
    {
      ghost var d := disk.sectors;
      CreateCondition(d, name, initialSize);
      CreateConditionOnFiles(d, name, initialSize);
      HeaderSectorsAreValid(d);
      ghost var h;
      success, h := CreateOnDisk(name, initialSize);
      if success {
        CreateRefines(d, disk.sectors, name, initialSize, h);
      }
    }

    /** The body of Create, which relies on no more than that the metadata files are open. */
    method CreateOnDisk(name: CString, initialSize: nat) returns (success: bool, ghost h: Header)
      requires Opened() && initialSize < 0x8000_0000
      requires initialSize <= MAX_FILE_SIZE
               || !PlanPossible(TableOn(disk.sectors), BitsOn(disk.sectors), name, initialSize)
      requires SectorsValid(TableOn(disk.sectors))
      requires FirstClear(BitsOn(disk.sectors), 0) == -1 || FirstClear(BitsOn(disk.sectors), 0) >= SYSTEM_SECTORS
      modifies disk
      ensures Opened()
      ensures success <==> PlanPossible(TableOn(old(disk.sectors)), BitsOn(old(disk.sectors)), name, initialSize)
      ensures !success ==> disk.sectors == old(disk.sectors)
      ensures success ==> CreatedWith(old(disk.sectors), disk.sectors, name, initialSize, h)
    {
      var planned, sector, hdr, directory, freeMap := PlanOnDisk(name, initialSize);
      h := hdr.Value();
      if !planned {
        return false, h;
      }
      StoreNewFile(hdr, sector, directory, freeMap);
      return true, h;
    }

    /** Create's tests and allocations on fresh copies of the directory and the map. */
    method PlanOnDisk(name: CString, initialSize: nat)
      returns (success: bool, sector: int, hdr: FileHeader, directory: Directory, freeMap: BitMap)
      requires Opened() && initialSize < 0x8000_0000 && SectorsValid(TableOn(disk.sectors))
      requires initialSize <= MAX_FILE_SIZE
               || !PlanPossible(TableOn(disk.sectors), BitsOn(disk.sectors), name, initialSize)
      ensures hdr.Valid() && directory.table.Length == NUM_DIR_ENTRIES
      ensures freeMap.Valid() && freeMap.numBits == NUM_SECTORS
      ensures success <==> PlanPossible(TableOn(disk.sectors), BitsOn(disk.sectors), name, initialSize)
      ensures success ==> sector == FirstClear(BitsOn(disk.sectors), 0)
      ensures success ==> Planned(TableOn(disk.sectors), BitsOn(disk.sectors), directory.table[..], freeMap.Bits(),
                                  name, initialSize, hdr.Value())
    {
      directory := LoadDirectory();
      freeMap := LoadMap();
      success, sector, hdr := PlanCreate(directory, freeMap, name, initialSize);
    }

    method StoreNewFile(hdr: FileHeader, sector: nat, directory: Directory, freeMap: BitMap)
      requires Opened() && hdr.Valid() && SYSTEM_SECTORS <= sector < NUM_SECTORS
      requires directory.table.Length == NUM_DIR_ENTRIES && freeMap.Valid() && freeMap.numBits == NUM_SECTORS
      modifies disk
      ensures Opened() && TableOn(disk.sectors) == directory.table[..] && BitsOn(disk.sectors) == freeMap.Bits()
      ensures HeaderStored(old(disk.sectors), disk.sectors, sector, hdr.Value())
    {
      ghost var d := disk.sectors;
      hdr.WriteBack(disk, sector);
      SystemFrame(d, disk.sectors);
      DecodeEncodeHeader(hdr.Value());
      Flush(directory, freeMap, true);
    }

    /** Opens the named file; null when there is none. */
    method Open(name: CString) returns (file: OpenFile?)
      requires Valid()
      ensures file == null <==> NameKey(name) !in Files(disk.sectors)
      ensures file != null ==> file.disk == disk && file.Valid() && file.seekPosition == 0
      ensures file != null ==> file.Bytes() == Files(disk.sectors)[NameKey(name)]
      ensures file != null ==> ListedAs(disk.sectors, NameKey(name), file.hdr.Value()) && PastMetadata(file.hdr.Value())
    {
      var directory := LoadDirectory();
      var sector := directory.Find(name);
      FoundSector(disk.sectors, NameKey(name));
      if sector >= 0 {
        file := new OpenFile(disk, sector);
      } else {
        file := null;
      }
    }

    /** WriteAt on a file opened from this volume as `key`, however long ago. If the file is still listed with the
      header it had then, or the write reaches no sector in use, the volume stays valid. */
    method WriteAt(file: OpenFile, ghost key: seq<byte>, position: nat, data: seq<byte>) returns (n: nat)
      requires Opened() && file.disk == disk && file.Valid() && PastMetadata(file.hdr.Value())
      modifies disk
      ensures Opened() && n == Clip(|old(file.Bytes())|, |data|, position)
      ensures WroteAt(old(disk.sectors), disk.sectors, file.hdr.Value(), position, data)
      ensures MayWrite(old(disk.sectors), key, file.hdr.Value(), position, |data|) ==>
                Valid() && WroteSafely(old(disk.sectors), disk.sectors, key, file.hdr.Value(), position, data)
    {
      ghost var d, h := disk.sectors, file.hdr.Value();
      WritesPastMetadata(h, position, |data|);
      n := WriteOnDisk(file, position, data);
      if MayWrite(d, key, h, position, |data|) {
        WriteKeepsVolume(d, disk.sectors, key, h, position, data);
      }
    }

    /** The body of WriteAt; sectors past the metadata are all it relies on. */
    method WriteOnDisk(file: OpenFile, position: nat, data: seq<byte>) returns (n: nat)
      requires Opened() && file.disk == disk && file.Valid()
      requires forall x :: x in WrittenSectors(file.hdr.Value(), position, |data|) ==> x >= SYSTEM_SECTORS
      modifies disk
      ensures Opened() && n == Clip(|old(file.Bytes())|, |data|, position)
      ensures WroteAt(old(disk.sectors), disk.sectors, file.hdr.Value(), position, data)
    {
      ghost var d := disk.sectors;
      n := file.WriteAt(data, position);
      SystemFrame(d, disk.sectors);
    }

    method Remove(name: CString) returns (success: bool)
      requires Valid()
      modifies disk
      ensures Valid()
      ensures success <==> NameKey(name) in old(Files(disk.sectors))
      ensures !success ==> disk.sectors == old(disk.sectors)
      ensures Step(old(disk.sectors), Operation.Remove(name), disk.sectors)
    {
      ghost var d := disk.sectors;
      FoundSector(d, NameKey(name));
      if IndexOf(TableOn(d), NameKey(name), 0) != -1 {
        ListedSectorsAreMarked(d, NameKey(name));
      }
      success := RemoveOnDisk(name);
      if success {
        RemoveCompleted(d, disk.sectors, name);
      }
    }

    /** The body of Remove; the listed file's sectors must be marked, or Deallocate's assertion would fail. */
    method RemoveOnDisk(name: CString) returns (success: bool)
      requires Opened()
      requires var t := TableOn(disk.sectors);
               var i := IndexOf(t, NameKey(name), 0);
               i != -1 ==> && FileOk(disk.sectors, SectorOf(t[i]))
                           && forall x :: x in DataOf(HeaderAt(disk.sectors, SectorOf(t[i]))) ==>
                                BitsOn(disk.sectors)[x]
      modifies disk
      ensures Opened()
      ensures success <==> IndexOf(TableOn(old(disk.sectors)), NameKey(name), 0) != -1
      ensures !success ==> disk.sectors == old(disk.sectors)
      ensures success ==> RemovedFrom(old(disk.sectors), disk.sectors, name)
    {
      var directory := LoadDirectory();
      var sector := directory.Find(name);
      if sector == -1 {
        return false;
      }
      var freeMap := FreeFile(sector);
      var _ := directory.Remove(name);
      Flush(directory, freeMap, false);
      return true;
    }

    /** The free map as it is once the file with this header sector has given its sectors back. */
    method FreeFile(sector: nat) returns (freeMap: BitMap)
      requires Opened() && FileOk(disk.sectors, sector)
      requires forall x :: x in DataOf(HeaderAt(disk.sectors, sector)) ==> BitsOn(disk.sectors)[x]
      ensures fresh(freeMap) && fresh(freeMap.words) && freeMap.Valid() && freeMap.numBits == NUM_SECTORS
      ensures Deallocated(BitsOn(disk.sectors), freeMap.Bits(), DataOf(HeaderAt(disk.sectors, sector)) + [sector])
    {
      ghost var bits := BitsOn(disk.sectors);
      var fileHdr := new FileHeader();
      fileHdr.FetchFrom(disk, sector);
      freeMap := LoadMap();
      ghost var h := fileHdr.Value();
      assert fileHdr.dataSectors[..h.numSectors] == DataOf(h);
      assert forall i :: 0 <= i < h.numSectors ==> DataOf(h)[i] == fileHdr.dataSectors[i];
      fileHdr.Deallocate(freeMap);
      freeMap.Clear(sector);
      assert forall x :: x in DataOf(h) + [sector] <==> x in DataOf(h) || x == sector;
    }
  }

  // That run on a volume without files, such as a newly formatted one

  lemma CreatedIsThere(d: Store, d': Store, name: CString)
    requires Consistent(d) && Files(d) == map[] && Step(d, Create(name, 1), d')
    ensures Consistent(d') && Files(d').Keys == {NameKey(name)} && CanCreate(d, name, 1)
  {
    OneFits(Files(d), NameKey(name));
    CreateConditionOnFiles(d, name, 1);
    CreateStepRefines(d, name, 1, d');
    OnlyKey(Files(d), Files(d'), NameKey(name));
  }

  lemma OnlyKey(m: map<seq<byte>, seq<byte>>, m': map<seq<byte>, seq<byte>>, key: seq<byte>)
    requires m == map[] && key in m' && m' == m[key := m'[key]]
    ensures m'.Keys == {key}
  {}

  lemma RemovedIsGone(d: Store, d': Store, name: CString)
    requires Consistent(d) && Files(d).Keys == {NameKey(name)} && Step(d, Remove(name), d')
    ensures Consistent(d') && Files(d') == map[]
  {
    RemoveRefines(d, d', name);
    NoKeys(Files(d), NameKey(name));
  }

  lemma NoKeys(m: map<seq<byte>, seq<byte>>, key: seq<byte>)
    requires m.Keys == {key}
    ensures m - {key} == map[]
  {}

  lemma OneFits(m: map<seq<byte>, seq<byte>>, key: seq<byte>)
    requires m == map[]
    ensures Fits(m, key, 1)
  {
    assert Taken(m) == {};
  }

  method CreateFirst(volume: FileSystem, name: CString)
    requires volume.Valid() && Files(volume.disk.sectors) == map[]
    modifies volume.disk
    ensures volume.Valid() && CanCreate(old(volume.disk.sectors), name, 1)
    ensures Step(old(volume.disk.sectors), Create(name, 1), volume.disk.sectors)
    ensures Files(volume.disk.sectors).Keys == {NameKey(name)}
  {
    ghost var d := volume.disk.sectors;
    var _ := volume.Create(name, 1);
    CreatedIsThere(d, volume.disk.sectors, name);
  }

  method OpenExisting(volume: FileSystem, name: CString) returns (file: OpenFile)
    requires volume.Valid() && NameKey(name) in Files(volume.disk.sectors)
    ensures file.disk == volume.disk && file.Valid() && PastMetadata(file.hdr.Value())
    ensures ListedAs(volume.disk.sectors, NameKey(name), file.hdr.Value())
  {
    file := volume.Open(name);
  }

  method RemoveOnly(volume: FileSystem, name: CString)
    requires volume.Valid() && Files(volume.disk.sectors).Keys == {NameKey(name)}
    modifies volume.disk
    ensures volume.Valid() && Files(volume.disk.sectors) == map[]
    ensures Step(old(volume.disk.sectors), Remove(name), volume.disk.sectors)
  {
    ghost var d := volume.disk.sectors;
    var _ := volume.Remove(name);
    RemovedIsGone(d, volume.disk.sectors, name);
  }

  method RemoveAndCreate(volume: FileSystem, a: CString, b: CString) returns (ghost d2: Store)
    requires volume.Valid() && Files(volume.disk.sectors).Keys == {NameKey(a)}
    modifies volume.disk
    ensures volume.Opened() && Step(old(volume.disk.sectors), Remove(a), d2)
    ensures Consistent(d2) && CanCreate(d2, b, 1) && Step(d2, Create(b, 1), volume.disk.sectors)
  {
    RemoveOnly(volume, a);
    d2 := volume.disk.sectors;
    CreateFirst(volume, b);
  }

  method RemoveCreateWrite(volume: FileSystem, file: OpenFile, a: CString, b: CString, x: byte)
    returns (ghost d2: Store, ghost d3: Store)
    requires volume.Valid() && Files(volume.disk.sectors).Keys == {NameKey(a)}
    requires file.disk == volume.disk && file.Valid() && PastMetadata(file.hdr.Value())
    requires ListedAs(volume.disk.sectors, NameKey(a), file.hdr.Value())
    modifies volume.disk
    ensures StaleSteps(old(volume.disk.sectors), d2, d3, volume.disk.sectors, a, b, 1, file.hdr.Value(), x)
  {
    d2 := RemoveAndCreate(volume, a, b);
    d3 := volume.disk.sectors;
    var _ := volume.WriteAt(file, NameKey(a), 0, [x]);
  }

  method OpenRemoveCreateWrite(volume: FileSystem, a: CString, b: CString, x: byte)
    returns (ghost d2: Store, ghost d3: Store, ghost h: Header)
    requires volume.Valid() && Files(volume.disk.sectors).Keys == {NameKey(a)}
    modifies volume.disk
    ensures StaleSteps(old(volume.disk.sectors), d2, d3, volume.disk.sectors, a, b, 1, h, x)
  {
    var file := OpenExisting(volume, a);
    h := file.hdr.Value();
    d2, d3 := RemoveCreateWrite(volume, file, a, b, x);
  }

  method WriteThroughRemovedFile(volume: FileSystem, a: CString, b: CString, x: byte)
    returns (ghost d1: Store, ghost d2: Store, ghost d3: Store, ghost h: Header)
    requires volume.Valid() && Files(volume.disk.sectors) == map[]
    modifies volume.disk
    ensures StaleRun(old(volume.disk.sectors), d1, d2, d3, volume.disk.sectors, a, b, 1, 1, h, x)
  {
    CreateFirst(volume, a);
    d1 := volume.disk.sectors;
    d2, d3, h := OpenRemoveCreateWrite(volume, a, b, x);
  }
}
