/** Demand paging of one address space: the frame allocator, the backing store, and the fault handler that evicts
  a page if it must and brings the faulted one in. */
module Paging {
  import opened Options
  import opened Bytes
  import opened BitMaps
  import opened Memory
  import opened OpenFiles

  /** A segment of the program: its bytes in the executable and its place in memory. The addresses of a segment that
    the program does not have are whatever they happen to be in the header. */
  datatype SegmentFields = SegmentFields(virtualAddr: int, inFileAddr: int, size: nat)

  type Segment = s: SegmentFields | s.size > 0 ==> s.virtualAddr >= 0 && s.inFileAddr >= 0
    witness SegmentFields(0, 0, 0)

  datatype Noff = Noff(code: Segment, initData: Segment, uninitSize: nat)

  type PageData = s: seq<byte> | |s| == PAGE_SIZE witness seq(128, _ => 0)

  // ---- Bringing in a page for the first time ----

  /** C's division, which rounds towards zero. */
  function PageOf(address: int): int {
    if address >= 0 then address / PAGE_SIZE else -(-address / PAGE_SIZE)
  }

  function FirstPage(s: Segment): int {
    PageOf(s.virtualAddr)
  }

  function LastPage(s: Segment): int {
    PageOf(s.virtualAddr + s.size)
  }

  /** The handler's range test, which includes the page of the segment's end. */
  predicate Touches(s: Segment, page: nat) {
    FirstPage(s) <= page <= LastPage(s)
  }

  /** ReadAt into a frame at `offset`: as many bytes as the file has. */
  function ReadInto(frame: PageData, offset: nat, file: seq<byte>, count: nat, position: nat): PageData
    requires offset + count <= PAGE_SIZE
  {
    Splice(frame, offset, Slice(file, position, Clip(|file|, count, position)))
  }

  /** Where on the page a segment's part starts, how much is read, and from where in the file. */
  function PartOffset(s: Segment, page: nat): (offset: nat)
    requires s.size > 0
    ensures offset < PAGE_SIZE
  {
    if FirstPage(s) == page then s.virtualAddr % PAGE_SIZE else 0
  }

  function PartCount(s: Segment, page: nat): (count: nat)
    requires s.size > 0
    ensures PartOffset(s, page) + count <= PAGE_SIZE
  {
    if FirstPage(s) == page then PAGE_SIZE - s.virtualAddr % PAGE_SIZE
    else if LastPage(s) > page then PAGE_SIZE
    else (s.virtualAddr + s.size) % PAGE_SIZE
  }

  function PartPosition(s: Segment, page: nat): nat
    requires s.size > 0 && Touches(s, page)
  {
    if FirstPage(s) == page then s.inFileAddr else s.inFileAddr + PAGE_SIZE * page - s.virtualAddr
  }

  /** One segment's part of a page; on the segment's first page it may read past the segment's end. */
  function LoadSegment(s: Segment, file: seq<byte>, page: nat, frame: PageData): PageData
    requires Touches(s, page)
  {
    if s.size == 0 then frame
    else ReadInto(frame, PartOffset(s, page), file, PartCount(s, page), PartPosition(s, page))
  }

  function Zeros(): PageData {
    seq(PAGE_SIZE, _ => 0)
  }

  function WithSegment(s: Segment, file: seq<byte>, page: nat, frame: PageData): PageData {
    if Touches(s, page) then LoadSegment(s, file, page, frame) else frame
  }

  /** Code, then data over it; zeros if the page touches neither. */
  function FirstContents(h: Noff, file: seq<byte>, page: nat, frame: PageData): PageData {
    if Touches(h.code, page) || Touches(h.initData, page) then
      WithSegment(h.initData, file, page, WithSegment(h.code, file, page, frame))
    else Zeros()
  }

  // What it should be

  predicate InSegment(s: Segment, address: nat) {
    s.virtualAddr <= address < s.virtualAddr + s.size
  }

  predicate InFile(s: Segment, file: seq<byte>) {
    s.inFileAddr + s.size <= |file|
  }

  /** What the linker guarantees of the segments that there are: they are in the file, and code ends at or before
    data begins. */
  predicate WellLinked(h: Noff, file: seq<byte>) {
    && (h.code.size > 0 ==> InFile(h.code, file))
    && (h.initData.size > 0 ==> InFile(h.initData, file))
    && (h.code.size > 0 && h.initData.size > 0 ==> h.code.virtualAddr + h.code.size <= h.initData.virtualAddr)
  }

  /** The program's initial memory: the segments' bytes, zero on pages that touch neither, and otherwise open. */
  function Image(h: Noff, file: seq<byte>, address: nat): Option<byte>
    requires WellLinked(h, file)
  {
    if InSegment(h.initData, address) then Some(file[h.initData.inFileAddr + (address - h.initData.virtualAddr)])
    else if InSegment(h.code, address) then Some(file[h.code.inFileAddr + (address - h.code.virtualAddr)])
    else if !Touches(h.code, address / PAGE_SIZE) && !Touches(h.initData, address / PAGE_SIZE) then Some(0)
    else None
  }

  /** Whatever the alignment, a segment's bytes on the page end up in their places. */
  lemma SegmentLoaded(s: Segment, file: seq<byte>, page: nat, frame: PageData, offset: nat)
    requires Touches(s, page) && InFile(s, file) && offset < PAGE_SIZE && InSegment(s, page * PAGE_SIZE + offset)
    ensures LoadSegment(s, file, page, frame)[offset]
            == file[s.inFileAddr + (page * PAGE_SIZE + offset - s.virtualAddr)]
  {
    var v, end := s.virtualAddr, s.virtualAddr + s.size;
    assert v == 128 * (v / 128) + v % 128 && end == 128 * (end / 128) + end % 128;
  }

  /** Loading a segment leaves what comes before it on the page as it was. */
  lemma BeforeSegmentKept(s: Segment, file: seq<byte>, page: nat, frame: PageData, offset: nat)
    requires Touches(s, page) && offset < PAGE_SIZE && (s.size > 0 ==> page * PAGE_SIZE + offset < s.virtualAddr)
    ensures LoadSegment(s, file, page, frame)[offset] == frame[offset]
  {
    var v := s.virtualAddr;
    assert v == 128 * (v / 128) + v % 128;
  }

  /** An address of a segment lies on a page that the segment touches. */
  lemma SegmentTouchesItsPages(s: Segment, address: nat)
    requires InSegment(s, address)
    ensures Touches(s, address / PAGE_SIZE)
  {
  }

  /** First-time page-in puts every byte that the program's image defines where it belongs, whatever the frame held
    and however far the first pages were over-read. */
  lemma FirstContentsAreTheImage(h: Noff, file: seq<byte>, page: nat, frame: PageData, offset: nat)
    requires WellLinked(h, file) && offset < PAGE_SIZE
    ensures var image := Image(h, file, page * PAGE_SIZE + offset);
            image.Some? ==> FirstContents(h, file, page, frame)[offset] == image.value
  {
    var address := page * PAGE_SIZE + offset;
    assert address / PAGE_SIZE == page;
    ImageByteIsLoaded(h, file, page, frame, offset, address);
  }

  lemma ImageByteIsLoaded(h: Noff, file: seq<byte>, page: nat, frame: PageData, offset: nat, address: nat)
    requires WellLinked(h, file) && offset < PAGE_SIZE
    requires address == page * PAGE_SIZE + offset && address / PAGE_SIZE == page
    ensures Image(h, file, address).Some? ==>
              FirstContents(h, file, page, frame)[offset] == Image(h, file, address).value
  {
    if InSegment(h.initData, address) {
      SegmentTouchesItsPages(h.initData, address);
      SegmentLoaded(h.initData, file, page, WithSegment(h.code, file, page, frame), offset);
    } else if InSegment(h.code, address) {
      SegmentTouchesItsPages(h.code, address);
      CodeIsLoaded(h, file, page, frame, offset, address);
    }
  }

  lemma CodeIsLoaded(h: Noff, file: seq<byte>, page: nat, frame: PageData, offset: nat, address: nat)
    requires WellLinked(h, file) && offset < PAGE_SIZE && address == page * PAGE_SIZE + offset
    requires Touches(h.code, page) && InSegment(h.code, address)
    ensures FirstContents(h, file, page, frame)[offset] == file[h.code.inFileAddr + (address - h.code.virtualAddr)]
  {
    SegmentLoaded(h.code, file, page, frame, offset);
    if Touches(h.initData, page) {
      BeforeSegmentKept(h.initData, file, page, WithSegment(h.code, file, page, frame), offset);
    }
  }

  lemma NothingToLoad(s: Segment, page: nat, frame: PageData)
    ensures WithSegment(s, [], page, frame) == frame
  {}

  /** A page is zero-filled regardless of file and frame exactly if it is outside both inclusive page ranges. */
  lemma ZeroFilledExactlyOutside(h: Noff, page: nat)
    ensures (forall file, frame :: FirstContents(h, file, page, frame) == Zeros())
            <==> !Touches(h.code, page) && !Touches(h.initData, page)
  {
    if Touches(h.code, page) || Touches(h.initData, page) {
      var ones: PageData := seq(PAGE_SIZE, _ => 1);
      NothingToLoad(h.code, page, ones);
      NothingToLoad(h.initData, page, ones);
      assert FirstContents(h, [], page, ones)[0] == 1 && Zeros()[0] == 0;
    }
  }

  /** Nothing is read for a segment: it is not there, has nothing on the page, or ends where the page begins. */
  predicate NothingRead(s: Segment, page: nat) {
    !Touches(s, page) || s.size == 0 || PartCount(s, page) == 0
  }

  lemma NothingReadIsNothingLoaded(s: Segment, file: seq<byte>, page: nat, frame: PageData)
    requires NothingRead(s, page)
    ensures WithSegment(s, file, page, frame) == frame
  {}

  /** A file that has ones wherever a segment is read from. */
  lemma SomethingIsRead(s: Segment, file: seq<byte>, page: nat, frame: PageData)
    requires Touches(s, page) && s.size > 0 && PartCount(s, page) > 0
    requires PartPosition(s, page) < |file| && file[PartPosition(s, page)] == 1
    ensures WithSegment(s, file, page, frame)[PartOffset(s, page)] == 1
  {}

  lemma OnesStay(s: Segment, n: nat, page: nat, frame: PageData, k: nat)
    requires k < PAGE_SIZE && frame[k] == 1
    ensures WithSegment(s, seq(n, _ => 1), page, frame)[k] == 1
  {}

  /** A page is neither loaded nor zeroed, so that its frame's old contents stay, exactly if the handler takes it for
    a page of some segment and yet reads nothing. */
  lemma LeftAsItWasExactly(h: Noff, page: nat)
    ensures (forall file, frame :: FirstContents(h, file, page, frame) == frame)
            <==> (Touches(h.code, page) || Touches(h.initData, page))
                 && NothingRead(h.code, page) && NothingRead(h.initData, page)
  {
    if !Touches(h.code, page) && !Touches(h.initData, page) {
      var ones: PageData := seq(PAGE_SIZE, _ => 1);
      assert FirstContents(h, [], page, ones)[0] == 0;
    } else if NothingRead(h.code, page) && NothingRead(h.initData, page) {
      forall file, frame
        ensures FirstContents(h, file, page, frame) == frame
      {
        NothingReadIsNothingLoaded(h.code, file, page, frame);
        NothingReadIsNothingLoaded(h.initData, file, page, frame);
      }
    } else {
      SomePageIsChanged(h, page);
    }
  }

  lemma SomePageIsChanged(h: Noff, page: nat)
    requires !NothingRead(h.code, page) || !NothingRead(h.initData, page)
    ensures exists file, frame :: FirstContents(h, file, page, frame) != frame
  {
    var s := if NothingRead(h.initData, page) then h.code else h.initData;
    var n, k := PartPosition(s, page) + 1, PartOffset(s, page);
    var file: seq<byte> := seq(n, _ => 1);
    var withCode := WithSegment(h.code, file, page, Zeros());
    if s == h.code {
      SomethingIsRead(s, file, page, Zeros());
      OnesStay(h.initData, n, page, withCode, k);
    } else {
      SomethingIsRead(s, file, page, withCode);
    }
    assert FirstContents(h, file, page, Zeros())[k] == 1 && Zeros()[k] == 0;
  }

  /** For example, a segment that ends on a page boundary leaves the next page so. */
  lemma BoundaryPageIsLeftAsItWas(h: Noff, file: seq<byte>, page: nat, frame: PageData)
    requires h.code.size > 0 && h.code.virtualAddr + h.code.size == page * PAGE_SIZE && !Touches(h.initData, page)
    ensures FirstContents(h, file, page, frame) == frame
  {
    var s := h.code;
    assert LastPage(s) == page && (s.virtualAddr + s.size) % PAGE_SIZE == 0;
    assert FirstPage(s) < page;
  }

  // ---- One address space, on values ----

  /** `inStore` and `store` are the backing store: which pages are in it, and its file. */
  datatype Space = Space(table: seq<Entry>, header: Noff, file: seq<byte>, inStore: seq<bool>, store: seq<byte>)

  const USER_STACK_SIZE: nat := 1024

  /** divRoundUp of everything the program needs. */
  function NumPages(h: Noff): nat {
    (h.code.size + h.initData.size + h.uninitSize + USER_STACK_SIZE + PAGE_SIZE - 1) / PAGE_SIZE
  }

  /** The space holds what the program needs, 1024 bytes of stack included, on as few pages as can be. */
  lemma PagesHoldTheProgram(h: Noff)
    ensures var need := h.code.size + h.initData.size + h.uninitSize + 1024;
            need <= PAGE_SIZE * NumPages(h) < need + PAGE_SIZE
  {
    var n := h.code.size + h.initData.size + h.uninitSize + 1024 + 127;
    assert n == 128 * (n / 128) + n % 128;
  }

  /** If the segments lie in the part of the space that their sizes add up to, the last 1024 bytes are the stack's. */
  lemma StackIsApart(h: Noff, s: Segment, a: nat)
    requires s == h.code || s == h.initData
    requires s.size > 0 ==> s.virtualAddr + s.size <= h.code.size + h.initData.size + h.uninitSize
    ensures InSegment(s, a) ==> a + 1024 < PAGE_SIZE * NumPages(h)
  {
    PagesHoldTheProgram(h);
  }

  ghost predicate SpaceOk(sp: Space) {
    && |sp.inStore| == |sp.table| && |sp.store| == PAGE_SIZE * |sp.table|
    && (forall p :: 0 <= p < |sp.table| ==> sp.table[p].virtualPage == p)
    && (forall p :: 0 <= p < |sp.table| && sp.table[p].valid ==> 0 <= sp.table[p].physicalPage < NUM_PHYS_PAGES)
    && (forall p :: 0 <= p < |sp.table| && !sp.table[p].valid ==> !sp.table[p].dirty)
  }

  function Frame(memory: seq<byte>, frame: nat): PageData
    requires |memory| == MEMORY_SIZE && frame < NUM_PHYS_PAGES
  {
    memory[frame * PAGE_SIZE..(frame + 1) * PAGE_SIZE]
  }

  /** BackingStore::PageOut */
  function PagedOut(sp: Space, memory: seq<byte>, page: nat): Space
    requires page < |sp.table| == |sp.inStore| && |memory| == MEMORY_SIZE
    requires 0 <= sp.table[page].physicalPage < NUM_PHYS_PAGES
  {
    sp.(store := Written(sp.store, sp.table[page].virtualPage * PAGE_SIZE, Frame(memory, sp.table[page].physicalPage)),
        inStore := sp.inStore[page := true])
  }

  /** Contents of the frame after BackingStore::PageIn, or from the executable if the store has no copy. */
  function PagedIn(sp: Space, page: nat, frame: PageData): PageData
    requires page < |sp.table| == |sp.inStore|
  {
    if sp.inStore[page] then ReadInto(frame, 0, sp.store, PAGE_SIZE, sp.table[page].virtualPage * PAGE_SIZE)
    else FirstContents(sp.header, sp.file, page, frame)
  }

  /** A dirty page is saved; in any case the entry becomes invalid and clean. */
  function Evicted(sp: Space, memory: seq<byte>, victim: nat): Space
    requires victim < |sp.table| == |sp.inStore| && |memory| == MEMORY_SIZE
    requires 0 <= sp.table[victim].physicalPage < NUM_PHYS_PAGES
  {
    var saved := if sp.table[victim].dirty then PagedOut(sp, memory, victim) else sp;
    saved.(table := sp.table[victim := sp.table[victim].(valid := false, dirty := false)])
  }

  function WithFrame(sp: Space, page: nat, frame: int): Space
    requires page < |sp.table|
  {
    sp.(table := sp.table[page := sp.table[page].(physicalPage := frame)])
  }

  datatype Paged = Paged(space: Space, memory: seq<byte>, frames: seq<bool>)

  /** What the handler can be called for: a page of the space that is not in memory, and, if no frame is free, a
    victim that is. */
  predicate CanFault(k: Paged, page: nat, victim: nat) {
    && page < |k.space.table| == |k.space.inStore| && |k.memory| == MEMORY_SIZE && |k.frames| == NUM_PHYS_PAGES
    && !k.space.table[page].valid
    && (FirstClear(k.frames, 0) == -1 ==>
          && victim < |k.space.table| && k.space.table[victim].valid
          && 0 <= k.space.table[victim].physicalPage < NUM_PHYS_PAGES)
  }

  /** Bringing the page into a frame that has been allocated to it. */
  function Installed(k: Paged, page: nat, frame: nat): Paged
    requires page < |k.space.table| == |k.space.inStore| && |k.memory| == MEMORY_SIZE && frame < NUM_PHYS_PAGES
  {
    Paged(WithFrame(k.space, page, frame),
          Splice(k.memory, frame * PAGE_SIZE, PagedIn(k.space, page, Frame(k.memory, frame))),
          k.frames)
  }

  /** Making room: the victim's frame goes back and is the one that is allocated next. */
  function MadeRoom(k: Paged, page: nat, victim: nat): Paged
    requires CanFault(k, page, victim) && FirstClear(k.frames, 0) == -1
  {
    k.(space := Evicted(WithFrame(k.space, page, -1), k.memory, victim),
       frames := k.frames[k.space.table[victim].physicalPage := false])
  }

  /** AddrSpace::PageFaultHandler */
  function Faulted(k: Paged, page: nat, victim: nat): Paged
    requires CanFault(k, page, victim)
  {
    var k1 := if FirstClear(k.frames, 0) == -1 then MadeRoom(k, page, victim) else k;
    var frame := FirstClear(k1.frames, 0);
    if frame == -1 then k1 else Installed(k1.(frames := k1.frames[frame := true]), page, frame)
  }

  // ---- The objects ----

  class MemoryManager {
    const bitMap: BitMap

    ghost predicate Valid()
      reads this, bitMap
    {
      bitMap.Valid() && bitMap.numBits == NUM_PHYS_PAGES
    }

    ghost function Frames(): (frames: seq<bool>)
      requires Valid()
      reads this, bitMap, bitMap.words
      ensures |frames| == NUM_PHYS_PAGES
    {
      bitMap.Bits()
    }

    constructor ()
      ensures Valid() && fresh(bitMap) && fresh(bitMap.words) && forall f :: 0 <= f < NUM_PHYS_PAGES ==> !Frames()[f]
    {
      bitMap := new BitMap(NUM_PHYS_PAGES);
    }

    /** The lowest free frame, or -1. Find has marked it already; the source marks all but frame 0 once more. */
    method AllocPage() returns (pageNum: int)
      requires Valid()
      modifies bitMap.words
      ensures pageNum == FirstClear(old(Frames()), 0)
      ensures Frames() == if pageNum == -1 then old(Frames()) else old(Frames())[pageNum := true]
    {
      pageNum := bitMap.Find();
      if pageNum > 0 {
        bitMap.Mark(pageNum);
      }
    }

    method FreePage(physPageNum: nat)
      requires Valid() && physPageNum < NUM_PHYS_PAGES
      modifies bitMap.words
      ensures Frames() == old(Frames())[physPageNum := false]
    {
      bitMap.Clear(physPageNum);
    }
  }

  class BackingStore {
    const inStore: array<bool>
    /** The store's file, read and written as open files are. */
    var file: seq<byte>

    constructor (numPages: nat, initial: seq<byte>)
      requires |initial| == numPages * PAGE_SIZE
      ensures inStore.Length == numPages && fresh(inStore) && file == initial
      ensures forall p :: 0 <= p < numPages ==> !inStore[p]
    {
      inStore := new bool[numPages](_ => false);
      file := initial;
    }

    method PageOut(pte: Entry, pteNum: nat, machine: Machine)
      requires pteNum < inStore.Length && machine.Valid() && 0 <= pte.physicalPage < NUM_PHYS_PAGES
      modifies this, inStore
      ensures file == Written(old(file), pte.virtualPage * PAGE_SIZE, Frame(machine.mainMemory[..], pte.physicalPage))
      ensures inStore[..] == old(inStore[..])[pteNum := true]
    {
      var at := pte.physicalPage * PAGE_SIZE;
      assert machine.mainMemory[at..at + PAGE_SIZE] == Frame(machine.mainMemory[..], pte.physicalPage);
      file := Written(file, pte.virtualPage * PAGE_SIZE, machine.mainMemory[at..at + PAGE_SIZE]);
      inStore[pteNum] := true;
    }

    method PageIn(pte: Entry, pteNum: nat, machine: Machine) returns (there: bool)
      requires pteNum < inStore.Length && machine.Valid() && 0 <= pte.physicalPage < NUM_PHYS_PAGES
      modifies machine.mainMemory
      ensures there == inStore[pteNum]
      ensures machine.mainMemory[..] == if !there then old(machine.mainMemory[..])
        else ReadOver(old(machine.mainMemory[..]), pte.physicalPage * PAGE_SIZE,
                      file, PAGE_SIZE, pte.virtualPage * PAGE_SIZE)
    {
      there := inStore[pteNum];
      if there {
        ReadAt(file, machine.mainMemory, pte.physicalPage * PAGE_SIZE, PAGE_SIZE, pte.virtualPage * PAGE_SIZE);
      }
    }
  }

  /** Memory after a file is read into it at `at`. */
  function ReadOver(memory: seq<byte>, at: nat, file: seq<byte>, count: nat, position: nat): (r: seq<byte>)
    requires at + count <= |memory|
    ensures |r| == |memory|
  {
    Splice(memory, at, Slice(file, position, Clip(|file|, count, position)))
  }

  /** OpenFile::ReadAt straight into memory, by its contract. */
  method ReadAt(file: seq<byte>, memory: array<byte>, at: nat, count: nat, position: nat)
    requires at + count <= memory.Length
    modifies memory
    ensures memory[..] == ReadOver(old(memory[..]), at, file, count, position)
  {
    var n := Clip(|file|, count, position);
    forall i | 0 <= i < n {
      memory[at + i] := file[position + i];
    }
  }

  /** Reading a file into memory inside one frame is reading it into the frame. */
  lemma ReadOverFrame(memory: seq<byte>, frame: nat, offset: nat, file: seq<byte>, count: nat, position: nat)
    requires |memory| == MEMORY_SIZE && frame < NUM_PHYS_PAGES && offset + count <= PAGE_SIZE
    ensures ReadOver(memory, frame * PAGE_SIZE + offset, file, count, position)
         == Splice(memory, frame * PAGE_SIZE, ReadInto(Frame(memory, frame), offset, file, count, position))
  {}

  /** Replacing one frame twice. */
  lemma SpliceFrameTwice(memory: seq<byte>, frame: nat, a: PageData, b: PageData)
    requires |memory| == MEMORY_SIZE && frame < NUM_PHYS_PAGES
    ensures Frame(Splice(memory, frame * PAGE_SIZE, a), frame) == a
    ensures Splice(Splice(memory, frame * PAGE_SIZE, a), frame * PAGE_SIZE, b) == Splice(memory, frame * PAGE_SIZE, b)
    ensures Splice(memory, frame * PAGE_SIZE, Frame(memory, frame)) == memory
  {}

  class AddrSpace {
    const pageTable: array<Entry>
    const store: BackingStore
    const header: Noff
    const executable: seq<byte>

    ghost function Value(): Space
      reads this, pageTable, store, store.inStore
    {
      Space(pageTable[..], header, executable, store.inStore[..], store.file)
    }

    /** Initialize and InitializeBackingStore: no page is in memory, or in the store. What physicalPage holds, and
      the contents of the store's new file, are arbitrary. */
    constructor (header: Noff, executable: seq<byte>, readOnly: bool, table: array<Entry>, initial: seq<byte>)
      requires table.Length == NumPages(header) && |initial| == PAGE_SIZE * NumPages(header)
      modifies table
      ensures Value().header == header && Value().file == executable
      ensures pageTable == table && fresh(store) && fresh(store.inStore)
      ensures |Value().table| == NumPages(header) && SpaceOk(Value())
      ensures forall p :: 0 <= p < NumPages(header) ==>
        Value().table[p] == Entry(p, old(table[p].physicalPage), false, readOnly, false, false) && !Value().inStore[p]
    {
      this.header, this.executable, pageTable := header, executable, table;
      store := new BackingStore(NumPages(header), initial);
      new;
      for i := 0 to table.Length
        modifies table
        invariant forall p :: 0 <= p < i ==>
                    table[p] == Entry(p, old(table[p].physicalPage), false, readOnly, false, false)
        invariant forall p :: i <= p < table.Length ==> table[p] == old(table[p])
      {
        table[i] := Entry(i, table[i].physicalPage, false, readOnly, false, false);
      }
    }

    /** One segment's part of the page, in the frame the page has been given. */
    method LoadPart(s: Segment, pageNumber: nat, machine: Machine)
      requires machine.Valid() && Touches(s, pageNumber)
      requires pageNumber < pageTable.Length && 0 <= pageTable[pageNumber].physicalPage < NUM_PHYS_PAGES
      modifies machine.mainMemory
      ensures var f, m := pageTable[pageNumber].physicalPage, old(machine.mainMemory[..]);
              machine.mainMemory[..] == Splice(m, f * PAGE_SIZE, LoadSegment(s, executable, pageNumber, Frame(m, f)))
    {
      var f := pageTable[pageNumber].physicalPage;
      if s.size > 0 {
        var offset, count, position := 0, PAGE_SIZE, s.inFileAddr;
        if s.virtualAddr / PAGE_SIZE == pageNumber {
          offset := s.virtualAddr % PAGE_SIZE;
          count := PAGE_SIZE - offset;
        } else {
          position := s.inFileAddr + PAGE_SIZE * pageNumber - s.virtualAddr;
          if LastPage(s) == pageNumber {
            count := (s.virtualAddr + s.size) % PAGE_SIZE;
          }
        }
        assert offset == PartOffset(s, pageNumber) && count == PartCount(s, pageNumber);
        assert position == PartPosition(s, pageNumber);
        ReadFrame(machine, f, offset, count, position);
      } else {
        SpliceFrameTwice(machine.mainMemory[..], f, Frame(machine.mainMemory[..], f), Frame(machine.mainMemory[..], f));
      }
    }

    method ReadFrame(machine: Machine, frame: nat, offset: nat, count: nat, position: nat)
      requires machine.Valid() && frame < NUM_PHYS_PAGES && offset + count <= PAGE_SIZE
      modifies machine.mainMemory
      ensures var m := old(machine.mainMemory[..]);
              machine.mainMemory[..]
              == Splice(m, frame * PAGE_SIZE, ReadInto(Frame(m, frame), offset, executable, count, position))
    {
      ReadOverFrame(machine.mainMemory[..], frame, offset, executable, count, position);
      ReadAt(executable, machine.mainMemory, frame * PAGE_SIZE + offset, count, position);
    }

    method LoadIfTouched(s: Segment, pageNumber: nat, machine: Machine) returns (touched: bool)
      requires machine.Valid()
      requires pageNumber < pageTable.Length && 0 <= pageTable[pageNumber].physicalPage < NUM_PHYS_PAGES
      modifies machine.mainMemory
      ensures touched == Touches(s, pageNumber)
      ensures var f, m := pageTable[pageNumber].physicalPage, old(machine.mainMemory[..]);
              machine.mainMemory[..] == Splice(m, f * PAGE_SIZE, WithSegment(s, executable, pageNumber, Frame(m, f)))
    {
      touched := Touches(s, pageNumber);
      if touched {
        LoadPart(s, pageNumber, machine);
      } else {
        var f := pageTable[pageNumber].physicalPage;
        SpliceFrameTwice(machine.mainMemory[..], f, Frame(machine.mainMemory[..], f), Frame(machine.mainMemory[..], f));
      }
    }

    method ZeroFrame(f: nat, machine: Machine)
      requires machine.Valid() && f < NUM_PHYS_PAGES
      modifies machine.mainMemory
      ensures machine.mainMemory[..] == Splice(old(machine.mainMemory[..]), f * PAGE_SIZE, Zeros())
    {
      forall i | 0 <= i < PAGE_SIZE {
        machine.mainMemory[f * PAGE_SIZE + i] := 0;
      }
    }

    /** From the executable, or zeros. */
    method LoadFirst(pageNumber: nat, machine: Machine)
      requires machine.Valid()
      requires pageNumber < pageTable.Length && 0 <= pageTable[pageNumber].physicalPage < NUM_PHYS_PAGES
      modifies machine.mainMemory
      ensures var f, m := pageTable[pageNumber].physicalPage, old(machine.mainMemory[..]);
              machine.mainMemory[..]
              == Splice(m, f * PAGE_SIZE, FirstContents(header, executable, pageNumber, Frame(m, f)))
    {
      var f := pageTable[pageNumber].physicalPage;
      ghost var m := machine.mainMemory[..];
      ghost var code := WithSegment(header.code, executable, pageNumber, Frame(m, f));
      ghost var both := WithSegment(header.initData, executable, pageNumber, code);
      var codeLoaded := LoadIfTouched(header.code, pageNumber, machine);
      var dataLoaded := LoadIfTouched(header.initData, pageNumber, machine);
      SpliceFrameTwice(m, f, code, both);
      if !codeLoaded && !dataLoaded {
        ZeroFrame(f, machine);
        SpliceFrameTwice(m, f, both, Zeros());
      }
    }

    /** The three things the handler works on besides the page table and the store. */
    ghost predicate Ready(machine: Machine, manager: MemoryManager)
      reads this, pageTable, store, store.inStore, machine, manager, manager.bitMap
    {
      && machine.Valid() && manager.Valid() && machine.pageTable == pageTable && SpaceOk(Value())
      && machine.mainMemory as object != manager.bitMap.words as object
    }

    ghost function All(machine: Machine, manager: MemoryManager): Paged
      requires manager.Valid()
      reads this, pageTable, store, store.inStore, machine, machine.mainMemory
      reads manager, manager.bitMap, manager.bitMap.words
    {
      Paged(Value(), machine.mainMemory[..], manager.Frames())
    }

    /** Any page of the space that is in memory: the source draws at random until it hits one. */
    method ChooseVictim() returns (victim: nat)
      requires exists p :: 0 <= p < pageTable.Length && pageTable[p].valid
      ensures victim < pageTable.Length && pageTable[victim].valid
    {
      victim :| victim < pageTable.Length && pageTable[victim].valid;
    }

    method Evict(victim: nat, machine: Machine, manager: MemoryManager)
      requires Ready(machine, manager) && victim < pageTable.Length && pageTable[victim].valid
      modifies pageTable, store, store.inStore, manager.bitMap.words
      ensures Value() == Evicted(old(Value()), machine.mainMemory[..], victim)
      ensures manager.Frames() == old(manager.Frames())[old(pageTable[victim]).physicalPage := false]
    {
      if pageTable[victim].dirty {
        store.PageOut(machine.pageTable[victim], victim, machine);
      }
      pageTable[victim] := pageTable[victim].(valid := false, dirty := false);
      manager.FreePage(pageTable[victim].physicalPage);
    }

    method FillFromStore(pageNumber: nat, machine: Machine) returns (there: bool)
      requires machine.Valid() && machine.pageTable == pageTable && pageNumber < store.inStore.Length
      requires pageNumber < pageTable.Length && 0 <= pageTable[pageNumber].physicalPage < NUM_PHYS_PAGES
      modifies machine.mainMemory
      ensures there == store.inStore[pageNumber]
      ensures machine.mainMemory[..] == if !there then old(machine.mainMemory[..]) else
        var pte, m := pageTable[pageNumber], old(machine.mainMemory[..]);
        Splice(m, pte.physicalPage * PAGE_SIZE,
               ReadInto(Frame(m, pte.physicalPage), 0, store.file, PAGE_SIZE, pte.virtualPage * PAGE_SIZE))
    {
      var pte := machine.pageTable[pageNumber];
      ReadOverFrame(machine.mainMemory[..], pte.physicalPage, 0, store.file, PAGE_SIZE, pte.virtualPage * PAGE_SIZE);
      there := store.PageIn(pte, pageNumber, machine);
    }

    /** Fills the frame the page has been given: from the store if it has a copy, else for the first time. */
    method Fill(pageNumber: nat, machine: Machine)
      requires machine.Valid() && machine.pageTable == pageTable && store.inStore.Length == pageTable.Length
      requires pageNumber < pageTable.Length && 0 <= pageTable[pageNumber].physicalPage < NUM_PHYS_PAGES
      modifies machine.mainMemory
      ensures var f, m := pageTable[pageNumber].physicalPage, old(machine.mainMemory[..]);
              machine.mainMemory[..] == Splice(m, f * PAGE_SIZE, PagedIn(Value(), pageNumber, Frame(m, f)))
    {
      var successfulPageIn := FillFromStore(pageNumber, machine);
      if !successfulPageIn {
        LoadFirst(pageNumber, machine);
      }
    }

    /** Evicts some page for one that has asked for a frame in vain, and allocates the frame it leaves. */
    method MakeRoom(pageNumber: nat, machine: Machine, manager: MemoryManager) returns (victim: nat)
      requires Ready(machine, manager) && pageNumber < pageTable.Length && !pageTable[pageNumber].valid
      requires FirstClear(manager.Frames(), 0) == -1 && pageTable[pageNumber].physicalPage == -1
      requires exists p :: 0 <= p < pageTable.Length && pageTable[p].valid
      modifies pageTable, store, store.inStore, manager.bitMap.words
      ensures victim < pageTable.Length && old(pageTable[victim]).valid
      ensures var f := old(pageTable[victim]).physicalPage;
              && Value() == WithFrame(Evicted(old(Value()), machine.mainMemory[..], victim), pageNumber, f)
              && manager.Frames() == old(manager.Frames())[f := false][f := true]
              && FirstClear(old(manager.Frames())[f := false], 0) == f
    {
      victim := ChooseVictim();
      FreedFrameIsFound(manager.Frames(), pageTable[victim].physicalPage);
      Evict(victim, machine, manager);
      var frame := manager.AllocPage();
      pageTable[pageNumber] := pageTable[pageNumber].(physicalPage := frame);
    }

    /** The first half of the handler: the page gets a frame, somebody's if none is free. */
    method GiveFrame(pageNumber: nat, machine: Machine, manager: MemoryManager) returns (victim: nat)
      requires Ready(machine, manager) && pageNumber < pageTable.Length && !pageTable[pageNumber].valid
      requires FirstClear(manager.Frames(), 0) == -1 ==> exists p :: 0 <= p < pageTable.Length && pageTable[p].valid
      modifies pageTable, store, store.inStore, manager.bitMap.words
      ensures machine.mainMemory[..] == old(machine.mainMemory[..])
      ensures CanFault(old(All(machine, manager)), pageNumber, victim)
      ensures GotFrame(old(All(machine, manager)), pageNumber, victim, Value(), manager.Frames())
    {
      victim := 0;
      ghost var k := All(machine, manager);
      var frame := manager.AllocPage();
      pageTable[pageNumber] := pageTable[pageNumber].(physicalPage := frame);
      assert Value() == WithFrame(k.space, pageNumber, frame);
      if frame == -1 {
        ghost var p :| 0 <= p < |k.space.table| && k.space.table[p].valid;
        assert pageTable[p].valid;
        victim := MakeRoom(pageNumber, machine, manager);
      }
    }

    method PageFaultHandler(pageNumber: nat, machine: Machine, manager: MemoryManager) returns (victim: nat)
      requires Ready(machine, manager) && pageNumber < pageTable.Length && !pageTable[pageNumber].valid
      requires FirstClear(manager.Frames(), 0) == -1 ==> exists p :: 0 <= p < pageTable.Length && pageTable[p].valid
      modifies pageTable, store, store.inStore, machine.mainMemory, manager.bitMap.words
      ensures CanFault(old(All(machine, manager)), pageNumber, victim)
      ensures All(machine, manager) == Faulted(old(All(machine, manager)), pageNumber, victim)
    {
      ghost var k := All(machine, manager);
      victim := GiveFrame(pageNumber, machine, manager);
      ghost var sp := Value();
      Fill(pageNumber, machine);
      FaultedIs(k, pageNumber, victim, sp, machine.mainMemory[..], manager.Frames());
    }

    /** The destructor: frames of pages in memory go back. */
    method Destroy(manager: MemoryManager)
      requires manager.Valid() && SpaceOk(Value())
      modifies manager.bitMap.words
      ensures manager.Frames() == Released(pageTable[..], old(manager.Frames()), pageTable.Length)
    {
      for i := 0 to pageTable.Length
        invariant manager.Frames() == Released(pageTable[..], old(manager.Frames()), i)
      {
        if pageTable[i].valid {
          manager.FreePage(pageTable[i].physicalPage);
        }
      }
    }
  }

  /** Frames after those of the first `n` pages have been given back. */
  function Released(table: seq<Entry>, frames: seq<bool>, n: nat): (r: seq<bool>)
    requires n <= |table|
    ensures |r| == |frames|
  {
    if n == 0 then frames
    else
      var before, e := Released(table, frames, n - 1), table[n - 1];
      if e.valid && 0 <= e.physicalPage < |frames| then before[e.physicalPage := false] else before
  }

  /** The page has been given frame number `physicalPage`: the lowest free one, or the victim's. */
  ghost predicate GotFrame(k: Paged, page: nat, victim: nat, sp: Space, frames: seq<bool>)
    requires CanFault(k, page, victim)
  {
    var f0 := FirstClear(k.frames, 0);
    if f0 != -1 then sp == WithFrame(k.space, page, f0) && frames == k.frames[f0 := true]
    else
      var f := k.space.table[victim].physicalPage;
      && sp == WithFrame(Evicted(WithFrame(k.space, page, -1), k.memory, victim), page, f)
      && frames == k.frames[f := false][f := true] && FirstClear(k.frames[f := false], 0) == f
  }

  /** Taking the steps of the handler apart and putting them together again. */
  lemma FaultedIs(k: Paged, page: nat, victim: nat, sp: Space, memory: seq<byte>, frames: seq<bool>)
    requires CanFault(k, page, victim) && SpaceOk(k.space) && GotFrame(k, page, victim, sp, frames)
    requires var f := sp.table[page].physicalPage;
             memory == Splice(k.memory, f * PAGE_SIZE, PagedIn(sp, page, Frame(k.memory, f)))
    ensures Faulted(k, page, victim) == Paged(sp, memory, frames)
  {
    var f := sp.table[page].physicalPage;
    if FirstClear(k.frames, 0) == -1 {
      FrameIsNoMatter(MadeRoom(k, page, victim).space, page, f, Frame(k.memory, f));
    } else {
      FrameIsNoMatter(k.space, page, f, Frame(k.memory, f));
    }
  }

  lemma FrameIsNoMatter(sp: Space, page: nat, f: int, frame: PageData)
    requires page < |sp.table| == |sp.inStore|
    ensures PagedIn(WithFrame(sp, page, f), page, frame) == PagedIn(sp, page, frame)
  {}

  /** With every frame taken, the one given back is the one found. */
  lemma FreedFrameIsFound(frames: seq<bool>, freed: nat)
    requires freed < |frames| && FirstClear(frames, 0) == -1
    ensures FirstClear(frames[freed := false], 0) == freed
  {
    FirstClearIs(frames[freed := false], 0, freed);
  }
}
