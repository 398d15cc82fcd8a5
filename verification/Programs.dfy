/** Virtual memory as a program sees it: which accesses go through, and that what it reads is what it last wrote, or
  what it was loaded with, whatever happens in between. */
module Programs {
  import opened Options
  import opened Bytes
  import opened BitMaps
  import opened OpenFiles
  import opened Memory
  import opened Paging
  import opened VirtualMemory

  // ---- Which accesses go through ----

  /** In every reachable state only misaligned addresses and those beyond the space are refused as such. An access to
    any other goes through, is a write to a read-only page, or faults; and there is no bus error. */
  lemma AccessesAreDecided(boot: State, run: seq<Action>, k: State, s: nat, addr: int32, size: nat, writing: bool)
    requires Boot(boot) && Reaches(boot, run, k) && s in k.spaces && IsSize(size)
    ensures var e, table := Outcome(k.spaces[s].table, addr, size, writing), k.spaces[s].table;
            && (e == AddressErrorException <==> ToWord(addr) % size != 0 || ToWord(addr) >= PAGE_SIZE * |table|)
            && (e != AddressErrorException ==> Page(addr) < |table|)
            && (e == ReadOnlyException ==> writing && table[Page(addr)].readOnly) && e != BusErrorException
  {
    RunKeepsInv(boot, run, k);
    OnlyBadAddressesAreRefused(k.spaces[s].table, addr, size, writing);
  }

  /** An access that faults goes through once the handler has run, whichever page it evicts, or is refused as a write to
    a read-only page. */
  lemma FaultingAccessesGoThrough(boot: State, run: seq<Action>, k: State, s: nat, addr: int32, size: nat,
                                  writing: bool, victim: nat)
    requires Boot(boot) && Reaches(boot, run, k) && s in k.spaces && IsSize(size)
    requires Outcome(k.spaces[s].table, addr, size, writing) == PageFaultException
    requires FirstClear(k.frames, 0) == -1 ==> victim < |k.spaces[s].table| && k.spaces[s].table[victim].valid
    ensures Enabled(k, Fault(s, Page(addr), victim))
    ensures var k' := Next(k, Fault(s, Page(addr), victim));
            && s in k'.spaces && Page(addr) < |k.spaces[s].table|
            && Outcome(k'.spaces[s].table, addr, size, writing)
               == if k.spaces[s].table[Page(addr)].readOnly && writing then ReadOnlyException else NoException
  {
    RunKeepsInv(boot, run, k);
    FaultsAreResolved(k, s, addr, size, writing, victim);
  }

  /** The register that a program's stack starts at points into its space, whatever the program. */
  lemma StackPointerIsInSpace(h: Noff, sp: int32)
    requires sp == PAGE_SIZE * NumPages(h) - 16
    ensures 0 <= sp && sp % 4 == 0 && ToWord(sp) + 16 == PAGE_SIZE * NumPages(h)
  {
    PagesHoldTheProgram(h);
  }

  /** What can be done in every reachable state: start a new program, read and write, and exit. */
  lemma ProgramsCanAct(boot: State, run: seq<Action>, k: State, s: nat, sp: Space, readOnly: bool, addr: int32,
                       size: nat, value: int32)
    requires Boot(boot) && Reaches(boot, run, k)
    ensures s !in k.spaces && Fresh(sp, readOnly) ==> Enabled(k, Start(s, sp, readOnly))
    ensures s in k.spaces && IsSize(size) ==> Enabled(k, Read(s, addr, size)) && Enabled(k, Write(s, addr, size, value))
    ensures s in k.spaces ==> Enabled(k, Exit(s)) && s !in Next(k, Exit(s)).spaces
  {
    RunKeepsInv(boot, run, k);
  }

  // ---- What a new program finds ----

  /** Every byte of a segment, and a zero wherever the page belongs to no segment. */
  lemma FlatIsTheImage(sp: Space, readOnly: bool, a: nat)
    requires Fresh(sp, readOnly) && a < PAGE_SIZE * NumPages(sp.header)
    ensures var h, m := sp.header, InitialFlat(sp);
            && (InSegment(h.initData, a) ==>
                  a in m && m[a] == sp.file[h.initData.inFileAddr + (a - h.initData.virtualAddr)])
            && (InSegment(h.code, a) ==> a in m && m[a] == sp.file[h.code.inFileAddr + (a - h.code.virtualAddr)])
            && (!Touches(h.code, a / PAGE_SIZE) && !Touches(h.initData, a / PAGE_SIZE) ==> a in m && m[a] == 0)
  {
    if InSegment(sp.header.initData, a) {
      SegmentTouchesItsPages(sp.header.initData, a);
    }
    if InSegment(sp.header.code, a) {
      SegmentTouchesItsPages(sp.header.code, a);
    }
  }

  /** When the segments lie where their sizes add up, all of their bytes are in the space. */
  lemma SegmentsAreInSpace(sp: Space, readOnly: bool, s: Segment, i: nat)
    requires Fresh(sp, readOnly) && (s == sp.header.code || s == sp.header.initData) && i < s.size
    requires s.virtualAddr + s.size <= sp.header.code.size + sp.header.initData.size + sp.header.uninitSize
    ensures s.virtualAddr + i in InitialFlat(sp) && InitialFlat(sp)[s.virtualAddr + i] == sp.file[s.inFileAddr + i]
  {
    PagesHoldTheProgram(sp.header);
    FlatIsTheImage(sp, readOnly, s.virtualAddr + i);
  }

  // ---- What is there stays until it is written to ----

  /** The program can rely on these bytes from `address` on. */
  ghost predicate Remembers(k: State, s: nat, address: nat, b: Data) {
    && s in k.spaces && s in k.flat
    && forall a :: address <= a < address + |b| ==> a in k.flat[s] && k.flat[s][a] == b[a - address]
  }

  /** An action that leaves those bytes alone: anything but the program's exit or a write of its own that overlaps. */
  predicate Spares(a: Action, s: nat, address: nat, n: nat) {
    && (a.Exit? ==> a.s != s)
    && (a.Write? && a.s == s ==> ToWord(a.addr) + a.size <= address || address + n <= ToWord(a.addr))
  }

  lemma SparedIsRemembered(k: State, a: Action, s: nat, address: nat, b: Data)
    requires Inv(k) && Enabled(k, a) && Remembers(k, s, address, b) && Spares(a, s, address, |b|)
    ensures Remembers(Next(k, a), s, address, b)
  {}

  lemma {:induction false} RememberedAlong(k: State, run: seq<Action>, k': State, s: nat, address: nat, b: Data)
    requires Inv(k) && Reaches(k, run, k') && Remembers(k, s, address, b)
    requires forall i :: 0 <= i < |run| ==> Spares(run[i], s, address, |b|)
    ensures Inv(k') && Remembers(k', s, address, b)
    decreases |run|
  {
    if run != [] {
      NextKeepsInv(k, run[0]);
      SparedIsRemembered(k, run[0], s, address, b);
      RememberedAlong(Next(k, run[0]), run[1..], k', s, address, b);
    }
  }

  lemma RememberedIsRead(k: State, s: nat, addr: int32, b: Data)
    requires Inv(k) && Remembers(k, s, ToWord(addr), b) && IsSize(|b|)
    requires Outcome(k.spaces[s].table, addr, |b|, false) == NoException
    ensures var p := PhysicalAddress(k.spaces[s].table, addr);
            0 <= p && p + |b| <= |k.memory| && k.memory[p..p + |b|] == b
  {
    ReadsFlatBytes(k, s, addr, |b|);
    assert FlatBytes(k.flat[s], ToWord(addr), |b|) == b;
  }

  /** A read of bytes that it remembers yields them, if it goes through. */
  ghost predicate ReadsAs(k: State, s: nat, addr: int32, b: Data) {
    && s in k.spaces && IsSize(|b|)
    && (Outcome(k.spaces[s].table, addr, |b|, false) == NoException ==>
          var p := PhysicalAddress(k.spaces[s].table, addr);
          0 <= p && p + |b| <= |k.memory| && k.memory[p..p + |b|] == b)
  }

  lemma RememberedIsReadLater(k: State, run: seq<Action>, k': State, s: nat, addr: int32, b: Data)
    requires Inv(k) && Reaches(k, run, k') && Remembers(k, s, ToWord(addr), b) && IsSize(|b|)
    requires forall i :: 0 <= i < |run| ==> Spares(run[i], s, ToWord(addr), |b|)
    ensures ReadsAs(k', s, addr, b)
  {
    RememberedAlong(k, run, k', s, ToWord(addr), b);
    if Outcome(k'.spaces[s].table, addr, |b|, false) == NoException {
      RememberedIsRead(k', s, addr, b);
    }
  }

  /** A write that goes through is remembered. */
  lemma WrittenIsRemembered(k: State, s: nat, addr: int32, size: nat, value: int32)
    requires Inv(k) && Enabled(k, Write(s, addr, size, value))
    requires Outcome(k.spaces[s].table, addr, size, true) == NoException
    ensures Remembers(Next(k, Write(s, addr, size, value)), s, ToWord(addr), BytesOf(value, size))
  {}

  /** A program reads what it last wrote: after any run in which it writes nothing over it, however often the page is
    evicted meanwhile and whatever other programs do, a read that goes through finds the bytes of the value. */
  lemma LastWriteIsRead(boot: State, early: seq<Action>, k: State, s: nat, addr: int32, size: nat, value: int32,
                        late: seq<Action>, k': State)
    requires Boot(boot) && Reaches(boot, early, k) && Enabled(k, Write(s, addr, size, value))
    requires Outcome(k.spaces[s].table, addr, size, true) == NoException
    requires Reaches(Next(k, Write(s, addr, size, value)), late, k')
    requires forall i :: 0 <= i < |late| ==> Spares(late[i], s, ToWord(addr), size)
    ensures ReadsAs(k', s, addr, BytesOf(value, size))
  {
    RunKeepsInv(boot, early, k);
    NextKeepsInv(k, Write(s, addr, size, value));
    WrittenIsRemembered(k, s, addr, size, value);
    RememberedIsReadLater(Next(k, Write(s, addr, size, value)), late, k', s, addr, BytesOf(value, size));
  }

  /** A new program's segments are remembered. */
  lemma SegmentIsRemembered(k: State, s: nat, sp: Space, readOnly: bool, seg: Segment, i: nat, n: nat)
    requires Enabled(k, Start(s, sp, readOnly)) && (seg == sp.header.code || seg == sp.header.initData)
    requires 0 < n && i + n <= seg.size && seg.virtualAddr + i + n <= PAGE_SIZE * NumPages(sp.header)
    ensures seg.virtualAddr >= 0 && seg.inFileAddr + i + n <= |sp.file|
    ensures var at := seg.inFileAddr + i;
            Remembers(Next(k, Start(s, sp, readOnly)), s, seg.virtualAddr + i, sp.file[at..at + n])
  {
    forall a: nat | seg.virtualAddr + i <= a < seg.virtualAddr + i + n
      ensures a in InitialFlat(sp) && InitialFlat(sp)[a] == sp.file[seg.inFileAddr + (a - seg.virtualAddr)]
    {
      FlatIsTheImage(sp, readOnly, a);
    }
  }

  /** Whether `b` is what the file has for that part of the segment. */
  predicate IsPartOf(b: Data, file: seq<byte>, seg: Segment, i: nat) {
    && 0 <= seg.inFileAddr && i + |b| <= seg.size && seg.inFileAddr + i + |b| <= |file|
    && file[seg.inFileAddr + i..seg.inFileAddr + i + |b|] == b
  }

  lemma PartIsRemembered(k: State, s: nat, sp: Space, readOnly: bool, seg: Segment, i: nat, b: Data)
    requires Enabled(k, Start(s, sp, readOnly)) && (seg == sp.header.code || seg == sp.header.initData)
    requires b != [] && IsPartOf(b, sp.file, seg, i) && seg.virtualAddr + i + |b| <= PAGE_SIZE * NumPages(sp.header)
    ensures seg.virtualAddr >= 0 && Remembers(Next(k, Start(s, sp, readOnly)), s, seg.virtualAddr + i, b)
  {
    SegmentIsRemembered(k, s, sp, readOnly, seg, i, |b|);
  }

  lemma StartedInReach(boot: State, early: seq<Action>, k: State, s: nat, sp: Space, readOnly: bool, k1: State)
    requires Boot(boot) && Reaches(boot, early, k)
    requires Enabled(k, Start(s, sp, readOnly)) && k1 == Next(k, Start(s, sp, readOnly))
    ensures Inv(k1)
  {
    RunKeepsInv(boot, early, k);
    NextKeepsInv(k, Start(s, sp, readOnly));
  }

  lemma StartIsRemembered(k: State, s: nat, sp: Space, readOnly: bool, k1: State, seg: Segment, i: nat, u: nat, b: Data)
    requires Enabled(k, Start(s, sp, readOnly)) && k1 == Next(k, Start(s, sp, readOnly)) && b != []
    requires (seg == sp.header.code || seg == sp.header.initData) && IsPartOf(b, sp.file, seg, i)
    requires u == seg.virtualAddr + i && u + |b| <= PAGE_SIZE * NumPages(sp.header)
    ensures Remembers(k1, s, u, b)
  {
    PartIsRemembered(k, s, sp, readOnly, seg, i, b);
  }

  /** A program reads the bytes of its segments as the file has them, until it writes over them. */
  lemma SegmentIsRead(boot: State, early: seq<Action>, k: State, s: nat, sp: Space, readOnly: bool, k1: State,
                      seg: Segment, i: nat, addr: int32, b: Data, late: seq<Action>, k': State)
    requires Boot(boot) && Reaches(boot, early, k) && Enabled(k, Start(s, sp, readOnly)) && IsSize(|b|)
    requires k1 == Next(k, Start(s, sp, readOnly)) && Reaches(k1, late, k')
    requires (seg == sp.header.code || seg == sp.header.initData) && IsPartOf(b, sp.file, seg, i)
    requires ToWord(addr) == seg.virtualAddr + i && ToWord(addr) + |b| <= PAGE_SIZE * NumPages(sp.header)
    requires forall j :: 0 <= j < |late| ==> Spares(late[j], s, ToWord(addr), |b|)
    ensures ReadsAs(k', s, addr, b)
  {
    StartedInReach(boot, early, k, s, sp, readOnly, k1);
    StartIsRemembered(k, s, sp, readOnly, k1, seg, i, ToWord(addr), b);
    RememberedIsReadLater(k1, late, k', s, addr, b);
  }

  // ---- The space stays as it was made ----

  /** Its size, its header and file, and which pages are read-only. */
  predicate SameShape(sp: Space, sp': Space) {
    && |sp'.table| == |sp.table| && sp'.header == sp.header && sp'.file == sp.file
    && forall p :: 0 <= p < |sp.table| ==> sp'.table[p].readOnly == sp.table[p].readOnly
  }

  lemma FaultKeepsShape(k: Paged, page: nat, victim: nat)
    requires CanFault(k, page, victim)
    ensures SameShape(k.space, Faulted(k, page, victim).space)
  {}

  lemma ShapeIsKept(k: State, a: Action, s: nat)
    requires Inv(k) && Enabled(k, a) && s in k.spaces && a != Exit(s)
    ensures s in Next(k, a).spaces && SameShape(k.spaces[s], Next(k, a).spaces[s])
  {
    if a.Fault? && a.s == s {
      FaultKeepsShape(Paged(k.spaces[s], k.memory, k.frames), a.page, a.victim);
    }
  }

  /** In every reachable state each program has as many pages as its header asks for. */
  ghost predicate Sized(k: State) {
    forall s :: s in k.spaces ==> |k.spaces[s].table| == NumPages(k.spaces[s].header)
  }

  lemma SizesAreKept(k: State, a: Action)
    requires Inv(k) && Enabled(k, a) && Sized(k)
    ensures Sized(Next(k, a))
  {
    forall s | s in Next(k, a).spaces
      ensures |Next(k, a).spaces[s].table| == NumPages(Next(k, a).spaces[s].header)
    {
      if s in k.spaces {
        ShapeIsKept(k, a, s);
      }
    }
  }

  lemma {:induction false} SizedAlong(k: State, run: seq<Action>, k': State)
    requires Inv(k) && Sized(k) && Reaches(k, run, k')
    ensures Sized(k')
    decreases |run|
  {
    if run != [] {
      NextKeepsInv(k, run[0]);
      SizesAreKept(k, run[0]);
      SizedAlong(Next(k, run[0]), run[1..], k');
    }
  }

  /** So in every reachable state the addresses that are not refused are those of the program and its stack. */
  lemma SpacesHoldTheProgram(boot: State, run: seq<Action>, k: State, s: nat, addr: int32, size: nat, writing: bool)
    requires Boot(boot) && Reaches(boot, run, k) && s in k.spaces && IsSize(size)
    ensures var h := k.spaces[s].header;
            var need := h.code.size + h.initData.size + h.uninitSize + 1024;
            && (ToWord(addr) < need && ToWord(addr) % size == 0 ==>
                  Outcome(k.spaces[s].table, addr, size, writing) != AddressErrorException)
            && (ToWord(addr) >= need + PAGE_SIZE ==>
                  Outcome(k.spaces[s].table, addr, size, writing) == AddressErrorException)
  {
    RunKeepsInv(boot, [], boot);
    SizedAlong(boot, run, k);
    AccessesAreDecided(boot, run, k, s, addr, size, writing);
    PagesHoldTheProgram(k.spaces[s].header);
  }

  // ---- What an access and a fault leave behind ----

  /** An access that goes through marks the page that it is on as used, and as dirty if it writes; nothing else in the
    table changes, and a read changes nothing but that. */
  lemma AccessesAreMarked(k: State, a: Action, q: nat)
    requires Inv(k) && Enabled(k, a) && (a.Read? || a.Write?) && q < |k.spaces[a.s].table|
    requires Outcome(k.spaces[a.s].table, a.addr, a.size, a.Write?) == NoException
    ensures var k' := Next(k, a);
            && a.s in k'.spaces && |k'.spaces[a.s].table| == |k.spaces[a.s].table|
            && (var e, e' := k.spaces[a.s].table[q], k'.spaces[a.s].table[q];
                && e'.virtualPage == e.virtualPage && e'.physicalPage == e.physicalPage
                && e'.valid == e.valid && e'.readOnly == e.readOnly
                && (e'.use <==> e.use || q == Page(a.addr))
                && (e'.dirty <==> e.dirty || (a.Write? && q == Page(a.addr))))
            && k'.frames == k.frames && (a.Read? ==> k'.memory == k.memory)
  {
    MarkIsUseAndDirty(k.spaces[a.s].table, Page(a.addr), a.Write?, q);
  }

  /** The frame that the handler gives the page: the lowest free one, or the victim's. */
  function FrameGiven(k: Paged, victim: nat): int
    requires FirstClear(k.frames, 0) == -1 ==> victim < |k.space.table|
  {
    if FirstClear(k.frames, 0) == -1 then k.space.table[victim].physicalPage else FirstClear(k.frames, 0)
  }

  /** What the handler does to the page table, the frames and the store: the page has the frame; a victim, which there
    is exactly if no frame was free, is out, clean, and in the store if it was dirty; and all else is as it was. */
  lemma WhatTheHandlerDoes(k: Paged, page: nat, victim: nat)
    requires CanFault(k, page, victim) && SpaceOk(k.space)
    ensures var k', full, frame := Faulted(k, page, victim), FirstClear(k.frames, 0) == -1, FrameGiven(k, victim);
            && 0 <= frame < NUM_PHYS_PAGES && |k'.space.table| == |k.space.table| && |k'.memory| == MEMORY_SIZE
            && k'.space.table[page] == k.space.table[page].(physicalPage := frame)
            && (full ==> k'.space.table[victim] == k.space.table[victim].(valid := false, dirty := false))
            && (forall q :: 0 <= q < |k.space.table| && q != page && !(full && q == victim) ==>
                  k'.space.table[q] == k.space.table[q])
            && k'.frames == if full then k.frames else k.frames[frame := true]
  {
    if FirstClear(k.frames, 0) == -1 {
      FreedFrameIsFound(k.frames, k.space.table[victim].physicalPage);
    }
  }

  lemma WhatTheHandlerStores(k: Paged, page: nat, victim: nat)
    requires CanFault(k, page, victim) && SpaceOk(k.space)
    ensures var sp, sp' := k.space, Faulted(k, page, victim).space;
            if FirstClear(k.frames, 0) == -1 && sp.table[victim].dirty then
              && sp'.inStore == sp.inStore[victim := true]
              && sp'.store == Splice(sp.store, victim * PAGE_SIZE, Frame(k.memory, sp.table[victim].physicalPage))
            else sp'.inStore == sp.inStore && sp'.store == sp.store
  {
    if FirstClear(k.frames, 0) == -1 {
      FreedFrameIsFound(k.frames, k.space.table[victim].physicalPage);
    }
  }

  /** And what it does to memory: the page's frame has what the store has of the page, or else what the executable
    has. */
  lemma WhatTheHandlerLoads(k: Paged, page: nat, victim: nat)
    requires CanFault(k, page, victim) && SpaceOk(k.space)
    ensures var k', frame := Faulted(k, page, victim), FrameGiven(k, victim);
            && 0 <= frame < NUM_PHYS_PAGES && |k'.memory| == MEMORY_SIZE && SameOutside(k.memory, k'.memory, frame)
            && Frame(k'.memory, frame) ==
               if k.space.inStore[page] then k.space.store[page * PAGE_SIZE..page * PAGE_SIZE + PAGE_SIZE]
               else FirstContents(k.space.header, k.space.file, page, Frame(k.memory, frame))
  {
    if FirstClear(k.frames, 0) == -1 {
      FreedFrameIsFound(k.frames, k.space.table[victim].physicalPage);
    }
  }
}
