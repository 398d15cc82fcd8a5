/** The file header (i-node): a file's length and the table of the sectors that hold its data. */
module FileHeaders {
  import opened Bytes
  import opened Sectors
  import opened BitMaps

  const NUM_DIRECT: nat := 30
  const MAX_FILE_SIZE: nat := 3840

  function DivRoundUp(n: int, s: int): int
    requires s > 0
  {
    n / s + (if n % s > 0 then 1 else 0)
  }

  /** The value of a header; it fills one sector exactly. */
  datatype Header = Header(numBytes: int32, numSectors: int32, dataSectors: seq<int32>)

  function EncodeHeader(h: Header): Sector
    requires |h.dataSectors| == NUM_DIRECT
  {
    EncodeWords(ToWords([h.numBytes, h.numSectors] + h.dataSectors))
  }

  function DecodeHeader(s: Sector): (h: Header)
    ensures |h.dataSectors| == NUM_DIRECT
  {
    var ns := ToInts(DecodeWords(s));
    Header(ns[0], ns[1], ns[2..])
  }

  lemma DecodeEncodeHeader(h: Header)
    requires |h.dataSectors| == NUM_DIRECT
    ensures DecodeHeader(EncodeHeader(h)) == h
  {
    var ns := [h.numBytes, h.numSectors] + h.dataSectors;
    IntsRoundTrip(ns);
    assert ns[2..] == h.dataSectors;
  }

  /** The words of a header's sector: the length, the number of sectors, and then the sectors. */
  lemma HeaderLayout(h: Header, i: nat)
    requires |h.dataSectors| == NUM_DIRECT && i < NUM_DIRECT + 2
    ensures var w := ToInt(DecodeWord(EncodeHeader(h)[4 * i..4 * i + 4]));
            w == if i == 0 then h.numBytes else if i == 1 then h.numSectors else h.dataSectors[i - 2]
  {
    var ns := [h.numBytes, h.numSectors] + h.dataSectors;
    WordInPlace(ToWords(ns), i);
    DecodeEncodeWord(ToWords(ns)[i]);
  }

  ghost predicate Distinct(s: seq<int>) {
    forall i, j :: 0 <= i < j < |s| ==> s[i] != s[j]
  }

  ghost predicate WellFormed(h: Header) {
    && |h.dataSectors| == NUM_DIRECT
    && 0 <= h.numBytes <= MAX_FILE_SIZE
    && h.numSectors == DivRoundUp(h.numBytes, SECTOR_SIZE)
    && (forall i :: 0 <= i < h.numSectors ==> 0 <= h.dataSectors[i] < NUM_SECTORS)
    && Distinct(h.dataSectors[..h.numSectors])
  }

  lemma SectorsCoverBytes(n: int)
    requires 0 <= n <= MAX_FILE_SIZE
    ensures 0 <= DivRoundUp(n, SECTOR_SIZE) <= NUM_DIRECT
    ensures n <= DivRoundUp(n, SECTOR_SIZE) * SECTOR_SIZE < n + SECTOR_SIZE
  {}

  /** Taking `picked` out of the clear bits, always the lowest clear one next. */
  ghost predicate Allocated(bits: seq<bool>, bits': seq<bool>, picked: seq<int>) {
    && |bits'| == |bits|
    && (forall i :: 0 <= i < |picked| ==> 0 <= picked[i] < |bits| && !bits[picked[i]])
    && Distinct(picked)
    && (forall s :: 0 <= s < |bits| ==> (bits'[s] <==> bits[s] || s in picked))
    && (forall i, s :: 0 <= i < |picked| && 0 <= s < picked[i] ==> bits[s] || s in picked[..i])
  }

  ghost predicate Deallocated(bits: seq<bool>, bits': seq<bool>, freed: seq<int>) {
    && |bits'| == |bits|
    && (forall s :: 0 <= s < |bits| ==> (bits'[s] <==> bits[s] && s !in freed))
  }

  lemma AllocateOneMore(bits: seq<bool>, mid: seq<bool>, picked: seq<int>, next: nat)
    requires Allocated(bits, mid, picked)
    requires next == FirstClear(mid, 0)
    ensures Allocated(bits, mid[next := true], picked + [next])
  {
    var picked', bits' := picked + [next], mid[next := true];
    forall s | 0 <= s < |bits|
      ensures bits'[s] <==> bits[s] || s in picked'
    {
      assert s in picked' <==> s in picked || s == next;
    }
    forall i, s | 0 <= i < |picked'| && 0 <= s < picked'[i]
      ensures bits[s] || s in picked'[..i]
    {
      if i < |picked| {
        assert picked'[..i] == picked[..i];
      } else {
        assert picked'[..i] == picked;
        assert mid[s];
      }
    }
  }

  lemma WithoutTheLastPick(bits: seq<bool>, bits': seq<bool>, init: seq<int>, last: int)
    requires Allocated(bits, bits', init + [last])
    ensures 0 <= last < |bits| && bits'[last]
    ensures Allocated(bits, bits'[last := false], init)
  {
    var picked := init + [last];
    assert picked[|init|] == last;
    assert forall i :: 0 <= i < |init| ==> picked[i] == init[i];
    var mid := bits'[last := false];
    forall i, s | 0 <= i < |init| && 0 <= s < init[i]
      ensures bits[s] || s in init[..i]
    {
      assert init[..i] == picked[..i];
    }
    forall s | 0 <= s < |bits|
      ensures mid[s] <==> bits[s] || s in init
    {
      assert s in picked <==> s in init || s == last;
    }
  }

  /** Allocation takes exactly as many clear bits as it hands out sectors. */
  lemma {:induction false} AllocationCounts(bits: seq<bool>, bits': seq<bool>, picked: seq<int>)
    requires Allocated(bits, bits', picked)
    ensures CountClear(bits') == CountClear(bits) - |picked|
    decreases |picked|
  {
    if picked == [] {
      assert bits' == bits;
    } else {
      var n := |picked| - 1;
      var init, last := picked[..n], picked[n];
      assert picked == init + [last];
      WithoutTheLastPick(bits, bits', init, last);
      var mid := bits'[last := false];
      AllocationCounts(bits, mid, init);
      CountAfterMark(mid, last);
      assert bits' == mid[last := true];
    }
  }

  lemma MoreToAllocate(bits: seq<bool>, mid: seq<bool>, picked: seq<int>)
    requires Allocated(bits, mid, picked) && |picked| < CountClear(bits)
    ensures FirstClear(mid, 0) != -1
    ensures Allocated(bits, mid[FirstClear(mid, 0) := true], picked + [FirstClear(mid, 0)])
  {
    AllocationCounts(bits, mid, picked);
    CountZero(mid);
    AllocateOneMore(bits, mid, picked, FirstClear(mid, 0));
  }

  lemma AllocatedIsWellFormed(bits: seq<bool>, bits': seq<bool>, h: Header)
    requires |bits| <= NUM_SECTORS && |h.dataSectors| == NUM_DIRECT
    requires 0 <= h.numBytes <= MAX_FILE_SIZE && h.numSectors == DivRoundUp(h.numBytes, SECTOR_SIZE)
    requires 0 <= h.numSectors <= NUM_DIRECT && Allocated(bits, bits', h.dataSectors[..h.numSectors])
    ensures WellFormed(h)
  {
    forall i | 0 <= i < h.numSectors
      ensures 0 <= h.dataSectors[i] < NUM_SECTORS
    {
      assert h.dataSectors[i] == h.dataSectors[..h.numSectors][i];
    }
  }

  /** Freeing what was just allocated restores the map. */
  lemma DeallocateUndoesAllocate(bits: seq<bool>, mid: seq<bool>, bits': seq<bool>, picked: seq<int>)
    requires Allocated(bits, mid, picked) && Deallocated(mid, bits', picked)
    ensures bits' == bits
  {
    forall s | 0 <= s < |bits|
      ensures bits'[s] == bits[s]
    {
      if s in picked {
        var i :| 0 <= i < |picked| && picked[i] == s;
      }
    }
  }

  class FileHeader {
    var numBytes: int32
    var numSectors: int32
    const dataSectors: array<int32>

    ghost predicate Valid()
      reads this
    {
      dataSectors.Length == NUM_DIRECT
    }

    ghost function Value(): (h: Header)
      requires Valid()
      reads this, dataSectors
      ensures |h.dataSectors| == NUM_DIRECT
    {
      Header(numBytes, numSectors, dataSectors[..])
    }

    constructor ()
      ensures Valid() && fresh(dataSectors)
    {
      dataSectors := new int32[NUM_DIRECT];
    }

    /** Takes data sectors for a file of `fileSize` bytes out of the free map; false when there are too few. A file
      that has room on the disk but not in the header would overrun the header's table. */
    method Allocate(freeMap: BitMap, fileSize: nat) returns (ok: bool)
      requires Valid() && freeMap.Valid() && freeMap.words as object != dataSectors
      requires fileSize < 0x8000_0000 && freeMap.numBits <= NUM_SECTORS
      requires fileSize <= MAX_FILE_SIZE || CountClear(freeMap.Bits()) < DivRoundUp(fileSize, SECTOR_SIZE)
      modifies this, dataSectors, freeMap.words
      ensures ok <==> CountClear(old(freeMap.Bits())) >= DivRoundUp(fileSize, SECTOR_SIZE)
      ensures !ok ==> freeMap.Bits() == old(freeMap.Bits())
      ensures ok ==> numBytes == fileSize && WellFormed(Value())
      ensures ok ==> Allocated(old(freeMap.Bits()), freeMap.Bits(), dataSectors[..numSectors])
    {
      numBytes := fileSize;
      numSectors := DivRoundUp(fileSize, SECTOR_SIZE);
      var clear := freeMap.NumClear();
      if clear < numSectors {
        return false;
      }
      SectorsCoverBytes(fileSize);
      ghost var bits0 := freeMap.Bits();
      TakeSectors(freeMap, numSectors);
      assert dataSectors[..][..numSectors] == dataSectors[..numSectors];
      AllocatedIsWellFormed(bits0, freeMap.Bits(), Value());
      return true;
    }

    /** Allocate's loop: fills the table with `n` sectors found in the map. */
    method TakeSectors(freeMap: BitMap, n: nat)
      requires Valid() && freeMap.Valid() && freeMap.words as object != dataSectors
      requires n <= NUM_DIRECT && n <= CountClear(freeMap.Bits()) && freeMap.numBits <= NUM_SECTORS
      modifies dataSectors, freeMap.words
      ensures Allocated(old(freeMap.Bits()), freeMap.Bits(), dataSectors[..n])
    {
      ghost var bits0 := freeMap.Bits();
      assert dataSectors[..0] == [];
      for i := 0 to n
        invariant Allocated(bits0, freeMap.Bits(), dataSectors[..i])
      {
        MoreToAllocate(bits0, freeMap.Bits(), dataSectors[..i]);
        ghost var picked := dataSectors[..i];
        var next := freeMap.Find();
        dataSectors[i] := next;
        assert dataSectors[..i + 1] == picked + [next];
      }
    }

    /** Gives every data sector back; each one ought to be marked, which the source asserts. */
    method Deallocate(freeMap: BitMap)
      requires Valid() && freeMap.Valid() && freeMap.words as object != dataSectors
      requires WellFormed(Value()) && freeMap.numBits == NUM_SECTORS
      requires forall i :: 0 <= i < numSectors ==> freeMap.Bits()[dataSectors[i]]
      modifies freeMap.words
      ensures Deallocated(old(freeMap.Bits()), freeMap.Bits(), dataSectors[..numSectors])
    {
      assert Distinct(dataSectors[..][..numSectors]);
      assert dataSectors[..][..numSectors] == dataSectors[..numSectors];
      for i := 0 to numSectors
        invariant Deallocated(old(freeMap.Bits()), freeMap.Bits(), dataSectors[..i])
      {
        ghost var n := numSectors;
        assert forall j :: 0 <= j < i ==> dataSectors[..n][j] != dataSectors[..n][i];
        var marked := freeMap.Test(dataSectors[i]);
        assert marked;
        freeMap.Clear(dataSectors[i]);
        assert dataSectors[..i + 1] == dataSectors[..i] + [dataSectors[i]];
      }
    }

    method FetchFrom(disk: SynchDisk, sector: nat)
      requires Valid() && sector < NUM_SECTORS
      modifies this, dataSectors
      ensures Value() == DecodeHeader(disk.sectors[sector])
    {
      var buf := new byte[SECTOR_SIZE];
      disk.ReadSector(sector, buf, 0);
      assert buf[..] == disk.sectors[sector];
      var h := DecodeHeader(buf[..]);
      numBytes, numSectors := h.numBytes, h.numSectors;
      forall i | 0 <= i < NUM_DIRECT {
        dataSectors[i] := h.dataSectors[i];
      }
      assert dataSectors[..] == h.dataSectors;
    }

    method WriteBack(disk: SynchDisk, sector: nat)
      requires Valid() && sector < NUM_SECTORS
      modifies disk
      ensures disk.sectors == old(disk.sectors)[sector := EncodeHeader(Value())]
    {
      var bytes := EncodeHeader(Header(numBytes, numSectors, dataSectors[..]));
      var buf := new byte[SECTOR_SIZE];
      BCopySeq(bytes, buf, 0);
      assert buf[..] == bytes;
      assert buf[0..SECTOR_SIZE] == bytes;
      disk.WriteSector(sector, buf, 0);
    }

    function ByteToSector(offset: nat): int32
      requires Valid() && offset / SECTOR_SIZE < NUM_DIRECT
      reads this, dataSectors
    {
      dataSectors[offset / SECTOR_SIZE]
    }

    function FileLength(): int32
      reads this
    {
      numBytes
    }
  }
}
