/** The simulated machine's memory: address translation through the page table, and reads and writes of one, two
  or four bytes. */
module Memory {
  import opened Bytes

  const PAGE_SIZE: nat := 128
  const NUM_PHYS_PAGES: nat := 32
  const MEMORY_SIZE: nat := 4096

  type Data = seq<byte>

  datatype Entry = Entry(virtualPage: nat, physicalPage: int, valid: bool, readOnly: bool, use: bool, dirty: bool)

  datatype Exception = NoException | PageFaultException | ReadOnlyException | BusErrorException | AddressErrorException

  /** Addresses are taken as unsigned: a negative one is a very large page number. */
  function Page(virtAddr: int32): nat {
    ToWord(virtAddr) / PAGE_SIZE
  }

  function Offset(virtAddr: int32): nat {
    ToWord(virtAddr) % PAGE_SIZE
  }

  predicate Misaligned(virtAddr: int32, size: nat) {
    (size == 4 && virtAddr % 4 != 0) || (size == 2 && virtAddr % 2 != 0)
  }

  /** What Translate answers. */
  function Outcome(table: seq<Entry>, virtAddr: int32, size: nat, writing: bool): Exception {
    var vpn := Page(virtAddr);
    if Misaligned(virtAddr, size) || vpn >= |table| then AddressErrorException
    else if !table[vpn].valid then PageFaultException
    else if table[vpn].readOnly && writing then ReadOnlyException
    else if !(0 <= table[vpn].physicalPage < NUM_PHYS_PAGES) then BusErrorException
    else NoException
  }

  /** The table after a successful translation. */
  function Marked(table: seq<Entry>, vpn: nat, writing: bool): seq<Entry>
    requires vpn < |table|
  {
    table[vpn := table[vpn].(use := true, dirty := table[vpn].dirty || writing)]
  }

  function PhysicalAddress(table: seq<Entry>, virtAddr: int32): int
    requires Page(virtAddr) < |table|
  {
    table[Page(virtAddr)].physicalPage * PAGE_SIZE + Offset(virtAddr)
  }

  /** Which accesses are refused for their address: those that are not aligned or lie beyond the last page, and no
    others. */
  lemma OnlyBadAddressesAreRefused(table: seq<Entry>, virtAddr: int32, size: nat, writing: bool)
    requires size in {1, 2, 4}
    ensures Outcome(table, virtAddr, size, writing) == AddressErrorException
            <==> ToWord(virtAddr) % size != 0 || ToWord(virtAddr) >= PAGE_SIZE * |table|
  {
    SameRemainders(virtAddr, ToWord(virtAddr));
    PageHolds(ToWord(virtAddr), ToWord(virtAddr) / PAGE_SIZE, |table|);
  }

  lemma PageHolds(u: nat, page: nat, pages: nat)
    requires page == u / 128
    ensures u < 128 * pages <==> page < pages
  {
    assert u == 128 * page + u % 128;
  }

  /** The page `p` that an aligned access lies on decides what else can come of it, and where it goes. */
  lemma PageDecides(table: seq<Entry>, virtAddr: int32, size: nat, writing: bool, p: nat)
    requires size in {1, 2, 4} && ToWord(virtAddr) % size == 0
    requires p < |table| && PAGE_SIZE * p <= ToWord(virtAddr) < PAGE_SIZE * p + PAGE_SIZE
    ensures var e, entry := Outcome(table, virtAddr, size, writing), table[p];
            && (e == PageFaultException <==> !entry.valid)
            && (e == ReadOnlyException <==> entry.valid && entry.readOnly && writing)
            && (e == BusErrorException <==>
                  entry.valid && !(entry.readOnly && writing) && !(0 <= entry.physicalPage < NUM_PHYS_PAGES))
            && (e == NoException <==>
                  entry.valid && !(entry.readOnly && writing) && 0 <= entry.physicalPage < NUM_PHYS_PAGES)
    ensures Page(virtAddr) == p
    ensures PhysicalAddress(table, virtAddr)
            == PAGE_SIZE * table[p].physicalPage + (ToWord(virtAddr) - PAGE_SIZE * p)
  {
    SameRemainders(virtAddr, ToWord(virtAddr));
    PageIs(ToWord(virtAddr), p);
  }

  lemma PageIs(u: nat, p: nat)
    requires 128 * p <= u < 128 * p + 128
    ensures u / 128 == p && u % 128 == u - 128 * p
  {}

  /** A translation leaves its mark on one entry: used, and dirty if it was or is written to. */
  lemma MarkIsUseAndDirty(table: seq<Entry>, p: nat, writing: bool, q: nat)
    requires p < |table| && q < |table|
    ensures var e, e' := table[q], Marked(table, p, writing)[q];
            && |Marked(table, p, writing)| == |table|
            && e'.virtualPage == e.virtualPage && e'.physicalPage == e.physicalPage
            && e'.valid == e.valid && e'.readOnly == e.readOnly
            && (e'.use <==> e.use || q == p) && (e'.dirty <==> e.dirty || (writing && q == p))
  {}

  /** A translated access stays inside its page, and so inside its frame. */
  lemma AccessStaysInFrame(table: seq<Entry>, virtAddr: int32, size: nat, writing: bool)
    requires size in {1, 2, 4} && Outcome(table, virtAddr, size, writing) == NoException
    ensures Offset(virtAddr) + size <= PAGE_SIZE
    ensures var frame := table[Page(virtAddr)].physicalPage * PAGE_SIZE;
            && frame <= PhysicalAddress(table, virtAddr)
            && PhysicalAddress(table, virtAddr) + size <= frame + PAGE_SIZE <= MEMORY_SIZE
    ensures 0 <= PhysicalAddress(table, virtAddr)
  {
    AlignedInPage(virtAddr, size);
    var frame := table[Page(virtAddr)].physicalPage;
    assert 0 <= frame < NUM_PHYS_PAGES;
  }

  lemma AlignedInPage(virtAddr: int32, size: nat)
    requires size in {1, 2, 4} && !Misaligned(virtAddr, size)
    ensures 0 <= Offset(virtAddr) && Offset(virtAddr) + size <= PAGE_SIZE
  {
    var u := ToWord(virtAddr);
    SameRemainders(virtAddr, u);
    MultipleInPage(u / 128, u % 128, size, u);
  }

  /** Going over to unsigned keeps alignment. */
  lemma SameRemainders(a: int, u: int)
    requires u == a || u == a + 0x1_0000_0000
    ensures u % 4 == a % 4 && u % 2 == a % 2
  {
    ModuloFour(u, if u == a then a / 4 else a / 4 + 0x4000_0000, a % 4);
    ModuloTwo(u, if u == a then a / 2 else a / 2 + 0x8000_0000, a % 2);
  }

  lemma ModuloFour(u: int, q: int, r: int)
    requires u == 4 * q + r && 0 <= r < 4
    ensures u % 4 == r
  {}

  lemma ModuloTwo(u: int, q: int, r: int)
    requires u == 2 * q + r && 0 <= r < 2
    ensures u % 2 == r
  {}

  lemma MultipleInPage(page: int, offset: int, size: nat, u: int)
    requires u == 128 * page + offset && 0 <= offset < 128 && size in {1, 2, 4} && u % size == 0
    ensures offset + size <= 128
  {}

  // ---- Values in memory ----

  predicate IsSize(size: nat) {
    size == 1 || size == 2 || size == 4
  }

  /** What ReadMem makes of the bytes: a single byte is a signed char. */
  function ValueOf(b: Data): int32
    requires IsSize(|b|)
  {
    var first: int := b[0];
    if |b| == 1 then (if first >= 128 then first - 256 else first)
    else if |b| == 2 then first + 256 * b[1] as int
    else ToInt(DecodeWord(b))
  }

  /** What WriteMem puts in memory. */
  function BytesOf(value: int32, size: nat): (b: Data)
    requires IsSize(size)
    ensures |b| == size
  {
    EncodeWord(ToWord(value))[..size]
  }

  /** The four digits of a word in base 256. */
  lemma Digits(w: nat, b0: nat, b1: nat, b2: nat, b3: nat)
    requires b0 < 256 && b1 < 256 && b2 < 256 && b3 < 256
    requires w == b0 + 256 * b1 + 0x1_0000 * b2 + 0x100_0000 * b3
    ensures w % 256 == b0 && w / 256 == b1 + 256 * b2 + 0x1_0000 * b3
    ensures w / 0x1_0000 == b2 + 256 * b3 && w / 0x100_0000 == b3
    ensures w / 256 % 256 == b1 && w / 256 / 256 == b2 + 256 * b3
  {
    assert w == 256 * (b1 + 256 * b2 + 0x1_0000 * b3) + b0;
    assert w / 256 == 256 * (b2 + 256 * b3) + b1;
  }

  /** Reading what was written gives the value back, cut to the size. */
  lemma ReadBackWord(value: int32)
    ensures ValueOf(BytesOf(value, 4)) == value
  {
    DecodeEncodeWord(ToWord(value));
    assert BytesOf(value, 4) == EncodeWord(ToWord(value));
  }

  lemma ReadBackShort(value: int32)
    ensures ValueOf(BytesOf(value, 2)) == value % 0x1_0000
  {
    var w := ToWord(value);
    LowHalf(w, w % 256, w / 256 % 256);
    SameLowHalf(value, w);
    assert ValueOf(BytesOf(value, 2)) == w % 256 + 256 * (w / 256 % 256);
  }

  lemma LowHalf(w: nat, low: nat, high: nat)
    requires low == w % 256 && high == w / 256 % 256
    ensures w % 0x1_0000 == low + 256 * high
  {
    assert w == 256 * (w / 256) + low && w / 256 == 256 * (w / 256 / 256) + high;
    assert w == 0x1_0000 * (w / 256 / 256) + 256 * high + low;
  }

  lemma SameLowHalf(a: int, u: int)
    requires u == a || u == a + 0x1_0000_0000
    ensures u % 0x1_0000 == a % 0x1_0000
  {
    if u != a {
      assert u == 0x1_0000 * (a / 0x1_0000 + 0x1_0000) + a % 0x1_0000;
    }
  }

  lemma ReadBackByte(value: int32)
    ensures ValueOf(BytesOf(value, 1)) == (value + 128) % 256 - 128
  {
    var f := value % 256;
    LowByte(value);
    SignedByte(value, f);
    assert ValueOf(BytesOf(value, 1)) == if f >= 128 then f - 256 else f;
  }

  lemma LowByte(value: int32)
    ensures ToWord(value) % 256 == value % 256
  {
    if value < 0 {
      assert ToWord(value) == 256 * (value / 256 + 0x100_0000) + value % 256;
    }
  }

  lemma SignedByte(value: int, f: int)
    requires f == value % 256
    ensures (value + 128) % 256 - 128 == if f >= 128 then f - 256 else f
  {
    var q := value / 256;
    assert value + 128 == 256 * (if f < 128 then q else q + 1) + (if f < 128 then f + 128 else f - 128);
  }

  // Hosts of either byte order

  function NativeWord(bigEndian: bool, b: Data): word
    requires |b| == 4
  {
    if bigEndian then DecodeWord([b[3], b[2], b[1], b[0]]) else DecodeWord(b)
  }

  /** The shifts and masks of WordToHost, which WordToMachine repeats. */
  function WordToHost(bigEndian: bool, w: word): int {
    if bigEndian then
      w / 0x100_0000 % 256 + w / 256 / 256 % 256 * 256 + w * 256 / 0x1_0000 % 256 * 0x1_0000 + w % 256 * 0x100_0000
    else w
  }

  function NativeShort(bigEndian: bool, b: Data): int
    requires |b| == 2
  {
    var low: int, high: int := b[0], b[1];
    if bigEndian then low * 256 + high else low + high * 256
  }

  function ShortToHost(bigEndian: bool, w: int): int {
    if bigEndian then w % 256 * 256 + w / 256 % 256 else w
  }

  lemma ShiftDown(w: nat)
    ensures w * 256 / 0x1_0000 == w / 256
  {
    var q, r := w / 256, w % 256;
    assert w * 256 == 0x1_0000 * q + 256 * r;
  }

  lemma Swapped(w: word, b0: nat, b1: nat, b2: nat, b3: nat)
    requires b0 < 256 && b1 < 256 && b2 < 256 && b3 < 256
    requires w == b0 + 256 * b1 + 0x1_0000 * b2 + 0x100_0000 * b3
    ensures WordToHost(true, w) == b3 + 256 * b2 + 0x1_0000 * b1 + 0x100_0000 * b0
  {
    Digits(w, b0, b1, b2, b3);
    ShiftDown(w);
    assert w / 0x100_0000 % 256 == b3;
    assert w / 256 / 256 % 256 == b2;
  }

  /** On a host of either order, memory is little-endian. */
  lemma WordsAreLittleEndian(bigEndian: bool, b: Data)
    requires |b| == 4
    ensures WordToHost(bigEndian, NativeWord(bigEndian, b)) == DecodeWord(b)
  {
    if bigEndian {
      Swapped(NativeWord(true, b), b[3], b[2], b[1], b[0]);
    }
  }

  lemma ShortsAreLittleEndian(bigEndian: bool, b: Data)
    requires |b| == 2
    ensures ShortToHost(bigEndian, NativeShort(bigEndian, b)) == ValueOf(b)
  {
    var low: int, high: int := b[0], b[1];
    assert (low * 256 + high) % 256 == high && (low * 256 + high) / 256 == low;
  }

  // ---- The machine ----

  class Machine {
    const mainMemory: array<byte>
    /** The table of the address space that runs. */
    var pageTable: array<Entry>

    ghost predicate Valid()
      reads this
    {
      mainMemory.Length == MEMORY_SIZE
    }

    constructor (table: array<Entry>)
      ensures Valid() && pageTable == table && fresh(mainMemory)
    {
      mainMemory := new byte[MEMORY_SIZE];
      pageTable := table;
    }

    method Translate(virtAddr: int32, size: nat, writing: bool) returns (e: Exception, physAddr: int)
      requires Valid() && IsSize(size)
      modifies pageTable
      ensures e == Outcome(old(pageTable[..]), virtAddr, size, writing)
      ensures e != NoException ==> pageTable[..] == old(pageTable[..])
      ensures e == NoException ==>
                && Page(virtAddr) < pageTable.Length
                && physAddr == PhysicalAddress(old(pageTable[..]), virtAddr)
                && 0 <= physAddr && physAddr + size <= MEMORY_SIZE
                && pageTable[..] == Marked(old(pageTable[..]), Page(virtAddr), writing)
    {
      physAddr := 0;
      if Misaligned(virtAddr, size) {
        return AddressErrorException, physAddr;
      }
      var vpn, offset := Page(virtAddr), Offset(virtAddr);
      if vpn >= pageTable.Length {
        return AddressErrorException, physAddr;
      } else if !pageTable[vpn].valid {
        return PageFaultException, physAddr;
      }
      var entry := pageTable[vpn];
      if entry.readOnly && writing {
        return ReadOnlyException, physAddr;
      }
      var pageFrame := entry.physicalPage;
      if pageFrame < 0 || pageFrame >= NUM_PHYS_PAGES {
        return BusErrorException, physAddr;
      }
      AccessStaysInFrame(pageTable[..], virtAddr, size, writing);
      pageTable[vpn] := entry.(use := true);
      if writing {
        pageTable[vpn] := entry.(use := true, dirty := true);
      }
      return NoException, pageFrame * PAGE_SIZE + offset;
    }

    /** `value` is what the program gets if no exception is raised. */
    method ReadMem(addr: int32, size: nat) returns (e: Exception, value: int32)
      requires Valid() && IsSize(size)
      modifies pageTable
      ensures e == Outcome(old(pageTable[..]), addr, size, false)
      ensures if e != NoException then pageTable[..] == old(pageTable[..])
              else Page(addr) < pageTable.Length && pageTable[..] == Marked(old(pageTable[..]), Page(addr), false)
                   && var p := PhysicalAddress(old(pageTable[..]), addr);
                      0 <= p && p + size <= MEMORY_SIZE && value == ValueOf(mainMemory[p..p + size])
    {
      var physicalAddress: int;
      e, physicalAddress := Translate(addr, size, false);
      value := 0;
      if e != NoException {
        return;
      }
      value := ValueOf(mainMemory[physicalAddress..physicalAddress + size]);
    }

    method WriteMem(addr: int32, size: nat, value: int32) returns (e: Exception)
      requires Valid() && IsSize(size)
      modifies pageTable, mainMemory
      ensures e == Outcome(old(pageTable[..]), addr, size, true)
      ensures if e != NoException then pageTable[..] == old(pageTable[..]) && mainMemory[..] == old(mainMemory[..])
              else Page(addr) < pageTable.Length && pageTable[..] == Marked(old(pageTable[..]), Page(addr), true)
                   && var p := PhysicalAddress(old(pageTable[..]), addr);
                      0 <= p && p + size <= MEMORY_SIZE
                      && mainMemory[..] == Splice(old(mainMemory[..]), p, BytesOf(value, size))
    {
      var physicalAddress: int;
      e, physicalAddress := Translate(addr, size, true);
      if e != NoException {
        return;
      }
      var b := BytesOf(value, size);
      forall i | 0 <= i < size {
        mainMemory[physicalAddress + i] := b[i];
      }
    }
  }
}
