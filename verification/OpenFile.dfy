/** Open files: reading and writing any range of bytes over a disk that moves whole sectors. */
module OpenFiles {
  import opened Bytes
  import opened Sectors
  import opened FileHeaders

  /** All bytes of a file's data sectors in file order, the unused tail of the last one included. */
  function Raw(d: Store, h: Header): (r: seq<byte>)
    requires WellFormed(h)
    ensures |r| == h.numSectors * SECTOR_SIZE
  {
    seq(h.numSectors * SECTOR_SIZE,
        i requires 0 <= i < h.numSectors * SECTOR_SIZE => d[h.dataSectors[i / SECTOR_SIZE]][i % SECTOR_SIZE])
  }

  /** The logical contents of a file: its first `numBytes` bytes. */
  function Contents(d: Store, h: Header): (c: seq<byte>)
    requires WellFormed(h)
    ensures |c| == h.numBytes
  {
    SectorsCoverBytes(h.numBytes);
    Raw(d, h)[..h.numBytes]
  }

  /** The sector at file index `i` holds the file's bytes from i * SECTOR_SIZE on. */
  lemma SectorHolds(d: Store, h: Header, i: nat)
    requires WellFormed(h) && i < h.numSectors
    ensures Raw(d, h)[i * SECTOR_SIZE..(i + 1) * SECTOR_SIZE] == d[h.dataSectors[i]]
  {}

  /** How many bytes a request moves: nothing from at or past the end, never beyond the end. */
  function Clip(fileLength: nat, numBytes: int, position: nat): (n: nat)
    ensures n > 0 ==> position + n <= fileLength && n <= numBytes
    ensures n == 0 <==> numBytes <= 0 || position >= fileLength
  {
    if numBytes <= 0 || position >= fileLength then 0
    else if position + numBytes > fileLength then fileLength - position
    else numBytes
  }

  function Slice(c: seq<byte>, position: nat, n: nat): (s: seq<byte>)
    requires n > 0 ==> position + n <= |c|
    ensures |s| == n
  {
    if n == 0 then [] else c[position..position + n]
  }

  /** The contents after writing `from` at `position`, as far as the file reaches. */
  function Written(c: seq<byte>, position: nat, from: seq<byte>): (c': seq<byte>)
    ensures |c'| == |c|
  {
    var n := Clip(|c|, |from|, position);
    if n == 0 then c else Splice(c, position, from[..n])
  }

  /** The sectors a clipped request touches lie inside the file. */
  lemma TouchedSectors(h: Header, position: nat, n: nat)
    requires WellFormed(h) && 0 < n && position + n <= h.numBytes
    ensures 0 <= position / SECTOR_SIZE <= (position + n - 1) / SECTOR_SIZE < h.numSectors <= NUM_DIRECT
  {
    SectorsCoverBytes(h.numBytes);
  }

  /** The sectors that a request to write `count` bytes through a header puts on the disk. */
  function WrittenSectors(h: Header, position: nat, count: nat): (touched: seq<int>)
    requires WellFormed(h)
    ensures forall s :: s in touched ==> s in h.dataSectors[..h.numSectors]
    ensures forall s :: s in touched ==> 0 <= s < NUM_SECTORS
  {
    var n := Clip(h.numBytes, count, position);
    if n == 0 then []
    else
      TouchedSectors(h, position, n);
      h.dataSectors[position / SECTOR_SIZE..(position + n - 1) / SECTOR_SIZE + 1]
  }

  /** The effect of a write: the file's contents change as `Written` says, on the sectors written and no others. */
  ghost predicate WroteAt(d: Store, d': Store, h: Header, position: nat, from: seq<byte>)
    requires WellFormed(h)
  {
    && Contents(d', h) == Written(Contents(d, h), position, from)
    && forall s :: 0 <= s < NUM_SECTORS && s !in WrittenSectors(h, position, |from|) ==> d'[s] == d[s]
  }

  /** One more sector read in behind the ones already there. */
  lemma AppendSector(d: Store, h: Header, before: seq<byte>, after: seq<byte>, first: nat, i: nat)
    requires WellFormed(h) && first <= i < h.numSectors && (i - first + 1) * SECTOR_SIZE <= |before|
    requires before[..(i - first) * SECTOR_SIZE] == Raw(d, h)[first * SECTOR_SIZE..i * SECTOR_SIZE]
    requires after == Splice(before, (i - first) * SECTOR_SIZE, d[h.dataSectors[i]])
    ensures after[..(i + 1 - first) * SECTOR_SIZE] == Raw(d, h)[first * SECTOR_SIZE..(i + 1) * SECTOR_SIZE]
  {
    SectorHolds(d, h, i);
    var raw, m := Raw(d, h), (i - first) * SECTOR_SIZE;
    assert after[..m + SECTOR_SIZE] == before[..m] + d[h.dataSectors[i]];
    assert raw[first * SECTOR_SIZE..i * SECTOR_SIZE] + raw[i * SECTOR_SIZE..(i + 1) * SECTOR_SIZE] ==
           raw[first * SECTOR_SIZE..(i + 1) * SECTOR_SIZE];
  }

  /** A buffer over the file from byte `start` on holds what the file should hold after the write. */
  ghost predicate BufferHolds(c: seq<byte>, buf: seq<byte>, start: nat, position: nat, from: seq<byte>)
    requires start <= position && position + |from| <= start + |buf| && position + |from| <= |c|
  {
    forall k :: start <= k < |c| && k < start + |buf| ==> buf[k - start] == Splice(c, position, from)[k]
  }

  /** `count` sectors of the file from index `first` on have been replaced by the buffer's. */
  ghost predicate SectorsReplaced(d: Store, d': Store, h: Header, first: nat, count: nat, buf: seq<byte>)
    requires WellFormed(h)
  {
    && first + count <= h.numSectors && count * SECTOR_SIZE <= |buf|
    && (forall i :: first <= i < first + count ==>
          d'[h.dataSectors[i]] == buf[(i - first) * SECTOR_SIZE..(i - first + 1) * SECTOR_SIZE])
    && (forall s :: 0 <= s < NUM_SECTORS && s !in h.dataSectors[first..first + count] ==> d'[s] == d[s])
  }

  lemma DataSectorsDiffer(h: Header, i: nat, j: nat)
    requires WellFormed(h) && i < h.numSectors && j < h.numSectors && i != j
    ensures h.dataSectors[i] != h.dataSectors[j]
  {
    var data := h.dataSectors[..h.numSectors];
    assert data[i] == h.dataSectors[i] && data[j] == h.dataSectors[j];
  }

  lemma ReplaceOneMore(d: Store, mid: Store, d': Store, h: Header, first: nat, count: nat, buf: seq<byte>)
    requires WellFormed(h) && SectorsReplaced(d, mid, h, first, count, buf)
    requires first + count < h.numSectors && (count + 1) * SECTOR_SIZE <= |buf|
    requires d' == mid[h.dataSectors[first + count] := buf[count * SECTOR_SIZE..count * SECTOR_SIZE + SECTOR_SIZE]]
    ensures SectorsReplaced(d, d', h, first, count + 1, buf)
  {
    forall i | first <= i < first + count
      ensures d'[h.dataSectors[i]] == mid[h.dataSectors[i]]
    {
      DataSectorsDiffer(h, i, first + count);
    }
    var touched := h.dataSectors[first..first + count + 1];
    assert touched == h.dataSectors[first..first + count] + [h.dataSectors[first + count]];
  }

  lemma ReplacedByte(d: Store, d': Store, h: Header, first: nat, count: nat, buf: seq<byte>, k: nat)
    requires WellFormed(h) && SectorsReplaced(d, d', h, first, count, buf) && k < |Raw(d, h)|
    ensures Raw(d', h)[k] ==
              if first <= k / SECTOR_SIZE < first + count then buf[k - first * SECTOR_SIZE] else Raw(d, h)[k]
  {
    var i, j := k / SECTOR_SIZE, k % SECTOR_SIZE;
    if first <= i < first + count {
      assert d'[h.dataSectors[i]][j] == buf[(i - first) * SECTOR_SIZE + j];
    } else {
      forall m | first <= m < first + count
        ensures h.dataSectors[m] != h.dataSectors[i]
      {
        DataSectorsDiffer(h, m, i);
      }
      var touched := h.dataSectors[first..first + count];
      assert forall m :: 0 <= m < |touched| ==> touched[m] == h.dataSectors[first + m];
    }
  }

  lemma ReplacedContents(d: Store, d': Store, h: Header, first: nat, count: nat, position: nat, from: seq<byte>,
                         buf: seq<byte>)
    requires WellFormed(h) && 0 < |from| && position + |from| <= h.numBytes
    requires first == position / SECTOR_SIZE && first + count == (position + |from| - 1) / SECTOR_SIZE + 1
    requires |buf| == count * SECTOR_SIZE
    requires BufferHolds(Contents(d, h), buf, first * SECTOR_SIZE, position, from)
    requires SectorsReplaced(d, d', h, first, count, buf)
    ensures Contents(d', h) == Splice(Contents(d, h), position, from)
  {
    var c, c', expected := Contents(d, h), Contents(d', h), Splice(Contents(d, h), position, from);
    forall k | 0 <= k < h.numBytes
      ensures c'[k] == expected[k]
    {
      ReplacedByte(d, d', h, first, count, buf, k);
    }
  }

  /** Putting a filled buffer's sectors back is the write. */
  lemma WriteCompletes(d: Store, d': Store, h: Header, position: nat, from: seq<byte>, first: nat, last: nat,
                       buf: seq<byte>)
    requires WellFormed(h)
    requires var n := Clip(h.numBytes, |from|, position);
             && 0 < n
             && first == position / SECTOR_SIZE && last == (position + n - 1) / SECTOR_SIZE
             && |buf| == (last + 1 - first) * SECTOR_SIZE
             && BufferHolds(Contents(d, h), buf, first * SECTOR_SIZE, position, from[..n])
             && SectorsReplaced(d, d', h, first, last + 1 - first, buf)
    ensures WroteAt(d, d', h, position, from)
  {
    var n := Clip(h.numBytes, |from|, position);
    ReplacedContents(d, d', h, first, last + 1 - first, position, from[..n], buf);
    assert WrittenSectors(h, position, |from|) == h.dataSectors[first..first + (last + 1 - first)];
  }

  /** One outcome of a write, sector by sector as the last loop of WriteAt puts them back: the buffer beyond the
    file's end, which may be anything, is what the disk held. */
  function Replaced(d: Store, h: Header, first: nat, count: nat, buf: seq<byte>): Store
    requires WellFormed(h) && first + count <= h.numSectors && count * SECTOR_SIZE <= |buf|
  {
    if count == 0 then d
    else
      Replaced(d, h, first, count - 1, buf)[h.dataSectors[first + count - 1] :=
        buf[(count - 1) * SECTOR_SIZE..(count - 1) * SECTOR_SIZE + SECTOR_SIZE]]
  }

  lemma {:induction false} ReplacedIs(d: Store, h: Header, first: nat, count: nat, buf: seq<byte>)
    requires WellFormed(h) && first + count <= h.numSectors && count * SECTOR_SIZE <= |buf|
    ensures SectorsReplaced(d, Replaced(d, h, first, count, buf), h, first, count, buf)
    decreases count
  {
    if count > 0 {
      ReplacedIs(d, h, first, count - 1, buf);
      ReplaceOneMore(d, Replaced(d, h, first, count - 1, buf), Replaced(d, h, first, count, buf),
                     h, first, count - 1, buf);
    }
  }

  lemma CutHolds(d: Store, h: Header, position: nat, from: seq<byte>, start: nat, end: nat)
    requires WellFormed(h) && start <= position
    requires position + |from| <= end <= |Raw(d, h)| && position + |from| <= h.numBytes
    ensures BufferHolds(Contents(d, h), Splice(Raw(d, h), position, from)[start..end], start, position, from)
  {
    SectorsCoverBytes(h.numBytes);
    var c, whole := Contents(d, h), Splice(Raw(d, h), position, from);
    forall k | start <= k < |c| && k < end
      ensures whole[start..end][k - start] == Splice(c, position, from)[k]
    {
      assert whole[start..end][k - start] == whole[k];
    }
  }

  lemma ReplacedIsWrite(d: Store, h: Header, position: nat, from: seq<byte>, first: nat, last: nat, buf: seq<byte>)
    requires WellFormed(h) && Clip(h.numBytes, |from|, position) > 0
    requires var n := Clip(h.numBytes, |from|, position);
             && first == position / SECTOR_SIZE && last == (position + n - 1) / SECTOR_SIZE < h.numSectors
             && |buf| == (last + 1 - first) * SECTOR_SIZE
             && BufferHolds(Contents(d, h), buf, first * SECTOR_SIZE, position, from[..n])
    ensures WroteAt(d, Replaced(d, h, first, last + 1 - first, buf), h, position, from)
  {
    ReplacedIs(d, h, first, last + 1 - first, buf);
    WriteCompletes(d, Replaced(d, h, first, last + 1 - first, buf), h, position, from, first, last, buf);
  }

  /** Any write can happen. */
  lemma SomeWrite(d: Store, h: Header, position: nat, from: seq<byte>) returns (d': Store)
    requires WellFormed(h) && Clip(h.numBytes, |from|, position) > 0
    ensures WroteAt(d, d', h, position, from)
  {
    var n := Clip(h.numBytes, |from|, position);
    TouchedSectors(h, position, n);
    var first, last := position / SECTOR_SIZE, (position + n - 1) / SECTOR_SIZE;
    var start, end := first * SECTOR_SIZE, (last + 1) * SECTOR_SIZE;
    CutHolds(d, h, position, from[..n], start, end);
    var buf := Splice(Raw(d, h), position, from[..n])[start..end];
    d' := Replaced(d, h, first, last + 1 - first, buf);
    ReplacedIsWrite(d, h, position, from, first, last, buf);
  }

  /** The requested slice of the file, cut out of the sectors read. */
  lemma CutOut(d: Store, h: Header, buf: seq<byte>, start: nat, position: nat, n: nat)
    requires WellFormed(h) && start <= position && 0 < n && position + n <= h.numBytes && position + n <= start + |buf|
    requires start + |buf| <= |Raw(d, h)| && buf == Raw(d, h)[start..start + |buf|]
    ensures buf[position - start..position - start + n] == Slice(Contents(d, h), position, n)
  {
    var raw, c, cut := Raw(d, h), Contents(d, h), buf[position - start..position - start + n];
    assert forall k :: 0 <= k < |buf| ==> buf[k] == raw[start + k];
    assert forall k :: 0 <= k < n ==> cut[k] == raw[position + k] == c[position + k];
  }

  /** The bytes of the touched sectors that the write leaves alone are in the buffer. */
  ghost predicate KeepsTheRest(c: seq<byte>, buf: seq<byte>, start: nat, position: nat, n: nat) {
    forall k :: start <= k < |c| && k < start + |buf| && !(position <= k < position + n) ==> buf[k - start] == c[k]
  }

  lemma CopyCompletesBuffer(c: seq<byte>, partial: seq<byte>, start: nat, position: nat, from: seq<byte>)
    requires start <= position && position + |from| <= start + |partial| && position + |from| <= |c|
    requires KeepsTheRest(c, partial, start, position, |from|)
    ensures BufferHolds(c, Splice(partial, position - start, from), start, position, from)
  {
    var buf, expected := Splice(partial, position - start, from), Splice(c, position, from);
    forall k | start <= k < |c| && k < start + |buf|
      ensures buf[k - start] == expected[k]
    {
      assert !(position <= k < position + |from|) ==> partial[k - start] == c[k];
    }
  }

  class OpenFile {
    const disk: SynchDisk
    const hdr: FileHeader
    var seekPosition: nat

    ghost predicate Valid()
      reads hdr, hdr.dataSectors
    {
      hdr.Valid() && WellFormed(hdr.Value())
    }

    ghost function Bytes(): seq<byte>
      requires Valid()
      reads disk, hdr, hdr.dataSectors
    {
      Contents(disk.sectors, hdr.Value())
    }

    constructor (disk: SynchDisk, sector: nat)
      requires sector < NUM_SECTORS && WellFormed(DecodeHeader(disk.sectors[sector]))
      ensures Valid() && fresh(hdr) && fresh(hdr.dataSectors)
      ensures this.disk == disk && hdr.Value() == DecodeHeader(disk.sectors[sector]) && seekPosition == 0
    {
      this.disk := disk;
      var h := new FileHeader();
      h.FetchFrom(disk, sector);
      hdr := h;
      seekPosition := 0;
    }

    method Seek(position: nat)
      modifies this`seekPosition
      ensures seekPosition == position
    {
      seekPosition := position;
    }

    /** Copies the part of the file at `position` that exists into the buffer at `at`. */
    method ReadAt(into: array<byte>, at: nat, numBytes: int, position: nat) returns (n: nat)
      requires Valid() && into as object != hdr.dataSectors
      requires numBytes > 0 ==> at + numBytes <= into.Length
      modifies into
      ensures n == Clip(|Bytes()|, numBytes, position)
      ensures n == 0 ==> into[..] == old(into[..])
      ensures n > 0 ==> into[..] == Splice(old(into[..]), at, Slice(Bytes(), position, n))
    {
      var fileLength := hdr.FileLength();
      if numBytes <= 0 || position >= fileLength {
        return 0;
      }
      n := if position + numBytes > fileLength then fileLength - position else numBytes;
      ReadClipped(into, at, n, position);
    }

    /** ReadAt once it is known how many bytes there are to read. */
    method ReadClipped(into: array<byte>, at: nat, n: nat, position: nat)
      requires Valid() && into as object != hdr.dataSectors
      requires 0 < n && position + n <= |Bytes()| && at + n <= into.Length
      modifies into
      ensures into[..] == Splice(old(into[..]), at, Slice(Bytes(), position, n))
    {
      var first, last := position / SECTOR_SIZE, (position + n - 1) / SECTOR_SIZE;
      TouchedSectors(hdr.Value(), position, n);
      var buf := new byte[(1 + last - first) * SECTOR_SIZE];
      ReadSectors(buf, first, last);
      var skip := position - first * SECTOR_SIZE;
      ghost var whole := buf[..];
      CutOut(disk.sectors, hdr.Value(), whole, first * SECTOR_SIZE, position, n);
      assert buf[skip..skip + n] == whole[skip..skip + n];
      BCopySeq(buf[skip..skip + n], into, at);
    }

    /** ReadAt's loop: the file's sectors from `first` to `last` fill the buffer. */
    method ReadSectors(buf: array<byte>, first: nat, last: nat)
      requires Valid() && buf as object != hdr.dataSectors
      requires first <= last < hdr.numSectors && buf.Length == (1 + last - first) * SECTOR_SIZE
      modifies buf
      ensures buf[..] == Raw(disk.sectors, hdr.Value())[first * SECTOR_SIZE..(last + 1) * SECTOR_SIZE]
    {
      ghost var h, raw := hdr.Value(), Raw(disk.sectors, hdr.Value());
      for i := first to last + 1
        invariant buf[..(i - first) * SECTOR_SIZE] == raw[first * SECTOR_SIZE..i * SECTOR_SIZE]
      {
        ghost var before := buf[..];
        assert before[..(i - first) * SECTOR_SIZE] == buf[..(i - first) * SECTOR_SIZE];
        disk.ReadSector(hdr.ByteToSector(i * SECTOR_SIZE), buf, (i - first) * SECTOR_SIZE);
        AppendSector(disk.sectors, h, before, buf[..], first, i);
        assert buf[..(i + 1 - first) * SECTOR_SIZE] == buf[..][..(i + 1 - first) * SECTOR_SIZE];
      }
      assert buf[..] == buf[..(last + 1 - first) * SECTOR_SIZE];
    }

    /** Reads the file's sector `i` into a buffer over the file from byte `start` on. */
    method ReadIn(buf: array<byte>, start: nat, i: nat)
      requires Valid() && buf as object != hdr.dataSectors
      requires start <= i * SECTOR_SIZE < |Bytes()| && (i + 1) * SECTOR_SIZE <= start + buf.Length
      modifies buf
      ensures forall k :: start <= k < |Bytes()| && k < start + buf.Length ==>
                buf[k - start] == if k / SECTOR_SIZE == i then Bytes()[k] else old(buf[k - start])
    {
      ghost var before, c := buf[..], Bytes();
      var n := ReadAt(buf, i * SECTOR_SIZE - start, SECTOR_SIZE, i * SECTOR_SIZE);
      ghost var after := buf[..];
      forall k | start <= k < |c| && k < start + buf.Length
        ensures buf[k - start] == if k / SECTOR_SIZE == i then c[k] else before[k - start]
      {
        assert buf[k - start] == after[k - start];
      }
    }

    /** Reads in the first and the last sector where the write will cover them only in part. */
    method ReadPartialSectors(buf: array<byte>, position: nat, n: nat, first: nat, last: nat)
      requires Valid() && buf as object != hdr.dataSectors
      requires 0 < n && position + n <= |Bytes()|
      requires first == position / SECTOR_SIZE && last == (position + n - 1) / SECTOR_SIZE
      requires buf.Length == (1 + last - first) * SECTOR_SIZE
      modifies buf
      ensures KeepsTheRest(Bytes(), buf[..], first * SECTOR_SIZE, position, n)
    {
      var firstAligned := position == first * SECTOR_SIZE;
      var lastAligned := position + n == (last + 1) * SECTOR_SIZE;
      if !firstAligned {
        ReadIn(buf, first * SECTOR_SIZE, first);
      }
      if !lastAligned && (first != last || firstAligned) {
        ReadIn(buf, first * SECTOR_SIZE, last);
      }
    }

    method WriteAt(from: seq<byte>, position: nat) returns (n: nat)
      requires Valid()
      modifies disk
      ensures n == Clip(|old(Bytes())|, |from|, position)
      ensures WroteAt(old(disk.sectors), disk.sectors, hdr.Value(), position, from)
    {
      var fileLength := hdr.FileLength();
      if |from| <= 0 || position >= fileLength {
        return 0;
      }
      n := if position + |from| > fileLength then fileLength - position else |from|;
      WriteClipped(from, position, n);
    }

    /** WriteAt once it is known how many bytes there are to write. */
    method WriteClipped(from: seq<byte>, position: nat, n: nat)
      requires Valid() && 0 < n == Clip(|Bytes()|, |from|, position)
      modifies disk
      ensures WroteAt(old(disk.sectors), disk.sectors, hdr.Value(), position, from)
    {
      var first, last := position / SECTOR_SIZE, (position + n - 1) / SECTOR_SIZE;
      TouchedSectors(hdr.Value(), position, n);
      var buf := new byte[(1 + last - first) * SECTOR_SIZE];
      FillBuffer(buf, from[..n], position, first, last);
      ghost var d, h, whole := disk.sectors, hdr.Value(), buf[..];
      assert BufferHolds(Contents(d, h), whole, first * SECTOR_SIZE, position, from[..n]);
      WriteSectors(buf, first, last);
      assert SectorsReplaced(d, disk.sectors, h, first, last + 1 - first, whole);
      WriteCompletes(d, disk.sectors, h, position, from, first, last, whole);
    }

    /** The part of WriteAt before it touches the disk: afterwards the buffer is the file's new sectors. */
    method FillBuffer(buf: array<byte>, from: seq<byte>, position: nat, first: nat, last: nat)
      requires Valid() && buf as object != hdr.dataSectors
      requires 0 < |from| && position + |from| <= |Bytes()|
      requires first == position / SECTOR_SIZE && last == (position + |from| - 1) / SECTOR_SIZE
      requires buf.Length == (1 + last - first) * SECTOR_SIZE
      modifies buf
      ensures BufferHolds(Bytes(), buf[..], first * SECTOR_SIZE, position, from)
    {
      ReadPartialSectors(buf, position, |from|, first, last);
      ghost var partial := buf[..];
      BCopySeq(from, buf, position - first * SECTOR_SIZE);
      CopyCompletesBuffer(Bytes(), partial, first * SECTOR_SIZE, position, from);
    }

    /** WriteAt's last loop: the buffer's sectors go back to disk. */
    method WriteSectors(buf: array<byte>, first: nat, last: nat)
      requires Valid() && first <= last < hdr.numSectors && buf.Length == (1 + last - first) * SECTOR_SIZE
      modifies disk
      ensures SectorsReplaced(old(disk.sectors), disk.sectors, hdr.Value(), first, last + 1 - first, buf[..])
    {
      ghost var d, h, whole := disk.sectors, hdr.Value(), buf[..];
      for i := first to last + 1
        invariant SectorsReplaced(d, disk.sectors, h, first, i - first, whole)
      {
        ghost var mid := disk.sectors;
        WriteOneSector(buf, i, (i - first) * SECTOR_SIZE);
        assert hdr.Value() == h && buf[..] == whole;
        ReplaceOneMore(d, mid, disk.sectors, h, first, i - first, whole);
      }
    }

    method WriteOneSector(buf: array<byte>, i: nat, at: nat)
      requires Valid() && i < hdr.numSectors && at + SECTOR_SIZE <= buf.Length
      modifies disk
      ensures disk.sectors == old(disk.sectors)[hdr.Value().dataSectors[i] := buf[..][at..at + SECTOR_SIZE]]
    {
      assert buf[..][at..at + SECTOR_SIZE] == buf[at..at + SECTOR_SIZE];
      disk.WriteSector(hdr.ByteToSector(i * SECTOR_SIZE), buf, at);
    }

    method Read(into: array<byte>, numBytes: int) returns (n: nat)
      requires Valid() && into as object != hdr.dataSectors
      requires numBytes > 0 ==> numBytes <= into.Length
      modifies into, this`seekPosition
      ensures n == Clip(|Bytes()|, numBytes, old(seekPosition)) && seekPosition == old(seekPosition) + n
      ensures into[..n] == Slice(Bytes(), old(seekPosition), n) && into[n..] == old(into[..])[n..]
    {
      n := ReadAt(into, 0, numBytes, seekPosition);
      assert into[..n] == into[..][..n] && into[n..] == into[..][n..];
      seekPosition := seekPosition + n;
    }

    method Write(from: seq<byte>) returns (n: nat)
      requires Valid()
      modifies disk, this`seekPosition
      ensures n == Clip(|old(Bytes())|, |from|, old(seekPosition)) && seekPosition == old(seekPosition) + n
      ensures WroteAt(old(disk.sectors), disk.sectors, hdr.Value(), old(seekPosition), from)
    {
      n := WriteAt(from, seekPosition);
      seekPosition := seekPosition + n;
    }

    function Length(): int32
      reads hdr
    {
      hdr.FileLength()
    }
  }

  /** A run of Write calls, one per chunk, from a seek position on: the contents and position they leave. */
  function WriteChunks(c: seq<byte>, position: nat, chunks: seq<seq<byte>>): (r: (seq<byte>, nat))
    decreases |chunks|
  {
    if chunks == [] then (c, position)
    else WriteChunks(Written(c, position, chunks[0]), position + Clip(|c|, |chunks[0]|, position), chunks[1..])
  }

  /** A run of Read calls, one per requested size: the bytes they return, joined. */
  function ReadChunks(c: seq<byte>, position: nat, sizes: seq<int>): seq<byte>
    decreases |sizes|
  {
    if sizes == [] then []
    else
      var n := Clip(|c|, sizes[0], position);
      Slice(c, position, n) + ReadChunks(c, position + n, sizes[1..])
  }

  function Join(chunks: seq<seq<byte>>): seq<byte> {
    if chunks == [] then [] else chunks[0] + Join(chunks[1..])
  }

  /** A request for a negative number of bytes is one for none. */
  function Size(numBytes: int): nat {
    if numBytes > 0 then numBytes else 0
  }

  function Total(sizes: seq<int>): (t: nat) {
    if sizes == [] then 0 else Size(sizes[0]) + Total(sizes[1..])
  }

  lemma SpliceTwice(c: seq<byte>, position: nat, a: seq<byte>, b: seq<byte>)
    requires position + |a| + |b| <= |c|
    ensures Splice(Splice(c, position, a), position + |a|, b) == Splice(c, position, a + b)
  {}

  lemma ClipJoined(length: nat, a: nat, b: nat, position: nat)
    ensures Clip(length, a + b, position)
            == Clip(length, a, position) + Clip(length, b, position + Clip(length, a, position))
  {}

  lemma WriteTwice(c: seq<byte>, position: nat, a: seq<byte>, b: seq<byte>)
    ensures Written(Written(c, position, a), position + Clip(|c|, |a|, position), b) == Written(c, position, a + b)
  {
    var n := Clip(|c|, |a|, position);
    var m := Clip(|c|, |b|, position + n);
    ClipJoined(|c|, |a|, |b|, position);
    if a == [] {
      assert a + b == b;
    } else if n < |a| {
      assert (a + b)[..n] == a[..n];
    } else if m == 0 {
      assert (a + b)[..n] == a[..n] == a;
    } else {
      assert (a + b)[..n + m] == a + b[..m];
      assert a[..n] == a;
      SpliceTwice(c, position, a, b[..m]);
    }
  }

  /** Writing in chunks is writing the joined chunks at once. */
  lemma {:induction false} ChunkedWrite(c: seq<byte>, position: nat, chunks: seq<seq<byte>>)
    ensures WriteChunks(c, position, chunks) ==
            (Written(c, position, Join(chunks)), position + Clip(|c|, |Join(chunks)|, position))
    decreases |chunks|
  {
    if chunks != [] {
      var c1, p1 := Written(c, position, chunks[0]), position + Clip(|c|, |chunks[0]|, position);
      ChunkedWrite(c1, p1, chunks[1..]);
      WriteTwice(c, position, chunks[0], Join(chunks[1..]));
      ClipJoined(|c|, |chunks[0]|, |Join(chunks[1..])|, position);
    }
  }

  lemma SliceTwice(c: seq<byte>, position: nat, n: nat, m: nat)
    requires n + m > 0 ==> position + n + m <= |c|
    ensures Slice(c, position, n) + Slice(c, position + n, m) == Slice(c, position, n + m)
  {
    if n > 0 && m > 0 {
      assert c[position..position + n] + c[position + n..position + n + m] == c[position..position + n + m];
    }
  }

  /** Reading twice in a row is reading the sum of the sizes once. */
  lemma ReadTwice(c: seq<byte>, position: nat, a: int, b: nat, total: nat, n: nat, tail: seq<byte>)
    requires total == Size(a) + b && n == Clip(|c|, a, position)
    requires tail == Slice(c, position + n, Clip(|c|, b, position + n))
    ensures Slice(c, position, n) + tail == Slice(c, position, Clip(|c|, total, position))
  {
    var m := Clip(|c|, b, position + n);
    assert Clip(|c|, total, position) == n + m;
    SliceTwice(c, position, n, m);
  }

  /** Reading in chunks is reading the total size at once. */
  lemma {:induction false} ChunkedRead(c: seq<byte>, position: nat, sizes: seq<int>)
    ensures ReadChunks(c, position, sizes) == Slice(c, position, Clip(|c|, Total(sizes), position))
    decreases |sizes|
  {
    if sizes != [] {
      var n, rest := Clip(|c|, sizes[0], position), sizes[1..];
      ChunkedRead(c, position + n, rest);
      ReadTwice(c, position, sizes[0], Total(rest), Total(sizes), n, ReadChunks(c, position + n, rest));
    }
  }

  /** Any chunking of writes, then a seek back and any chunking of reads of the same total, returns the bytes
      written, as far as the file reaches. */
  lemma WriteThenRead(c: seq<byte>, position: nat, chunks: seq<seq<byte>>, sizes: seq<int>)
    requires Total(sizes) == |Join(chunks)|
    ensures ReadChunks(WriteChunks(c, position, chunks).0, position, sizes) ==
            Join(chunks)[..Clip(|c|, |Join(chunks)|, position)]
  {
    ChunkedWrite(c, position, chunks);
    ChunkedRead(WriteChunks(c, position, chunks).0, position, sizes);
  }
}
