/** Paging is invisible: over any run of reads, writes, page faults, program starts and exits, with any choice of
  victims, every program sees a flat memory of its own.

  The fault handler runs as one step. `flat` is that flat memory, space by space: it holds the bytes the program
  can rely on, those of its segments, of its zero-filled pages, and those it has written itself. */
module VirtualMemory {
  import opened Options
  import opened Bytes
  import opened BitMaps
  import opened Memory
  import opened OpenFiles
  import opened Paging

  type Flat = map<nat, byte>

  datatype State = State(memory: seq<byte>, frames: seq<bool>, spaces: map<nat, Space>, flat: map<nat, Flat>)

  datatype Action =
    | Start(s: nat, space: Space, readOnly: bool)
    | Read(s: nat, addr: int32, size: nat)
    | Write(s: nat, addr: int32, size: nat, value: int32)
    | Fault(s: nat, page: nat, victim: nat)
    | Exit(s: nat)

  // ---- The steps ----

  /** A space as Initialize leaves it. */
  ghost predicate Fresh(sp: Space, readOnly: bool) {
    && WellLinked(sp.header, sp.file) && |sp.table| == NumPages(sp.header)
    && |sp.inStore| == |sp.table| && |sp.store| == PAGE_SIZE * |sp.table|
    && (forall p :: 0 <= p < |sp.table| ==> !sp.inStore[p])
    && (forall p :: 0 <= p < |sp.table| ==>
            sp.table[p] == Entry(p, sp.table[p].physicalPage, false, readOnly, false, false))
  }

  ghost predicate Enabled(k: State, a: Action) {
    && |k.memory| == MEMORY_SIZE && |k.frames| == NUM_PHYS_PAGES
    && match a
       case Start(s, space, readOnly) => s !in k.spaces && Fresh(space, readOnly)
       case Read(s, _, size) => s in k.spaces && s in k.flat && IsSize(size)
       case Write(s, _, size, _) => s in k.spaces && s in k.flat && IsSize(size)
       case Fault(s, page, victim) => s in k.spaces && CanFault(Paged(k.spaces[s], k.memory, k.frames), page, victim)
       case Exit(s) => s in k.spaces
  }

  /** The bytes the program image defines. */
  function InitialFlat(sp: Space): Flat
    requires WellLinked(sp.header, sp.file)
  {
    map a: nat | 0 <= a < PAGE_SIZE * |sp.table| && Image(sp.header, sp.file, a).Some?
      :: Image(sp.header, sp.file, a).value
  }

  /** Flat memory after bytes have been written from `address` on. */
  function FlatWritten(m: Flat, address: nat, b: Data): (r: Flat)
    ensures forall a :: a in r <==> a in m || address <= a < address + |b|
    ensures forall a :: a in r ==> r[a] == if address <= a < address + |b| then b[a - address] else m[a]
  {
    if b == [] then m
    else FlatWritten(m, address, b[..|b| - 1])[address + |b| - 1 := b[|b| - 1]]
  }

  function WithTable(sp: Space, table: seq<Entry>): Space {
    sp.(table := table)
  }

  /** After the handler, the exception dispatcher marks the page valid. */
  function MadeValid(sp: Space, page: nat): Space
    requires page < |sp.table|
  {
    sp.(table := sp.table[page := sp.table[page].(valid := true)])
  }

  function Wrote(k: State, s: nat, addr: int32, size: nat, value: int32): State
    requires s in k.spaces && s in k.flat && IsSize(size) && |k.memory| == MEMORY_SIZE
    requires Outcome(k.spaces[s].table, addr, size, true) == NoException
  {
    var table := k.spaces[s].table;
    AccessStaysInFrame(table, addr, size, true);
    k.(memory := Splice(k.memory, PhysicalAddress(table, addr), BytesOf(value, size)),
       spaces := k.spaces[s := WithTable(k.spaces[s], Marked(table, Page(addr), true))],
       flat := k.flat[s := FlatWritten(k.flat[s], ToWord(addr), BytesOf(value, size))])
  }

  function FaultHandled(k: State, s: nat, page: nat, victim: nat): State
    requires s in k.spaces && CanFault(Paged(k.spaces[s], k.memory, k.frames), page, victim)
  {
    var after := Faulted(Paged(k.spaces[s], k.memory, k.frames), page, victim);
    k.(memory := after.memory, frames := after.frames,
       spaces := k.spaces[s := if page < |after.space.table| then MadeValid(after.space, page) else after.space])
  }

  function Exited(k: State, s: nat): State
    requires s in k.spaces
  {
    k.(spaces := k.spaces - {s}, flat := k.flat - {s},
       frames := Released(k.spaces[s].table, k.frames, |k.spaces[s].table|))
  }

  ghost function Next(k: State, a: Action): State
    requires Enabled(k, a)
  {
    match a
    case Start(s, space, _) => k.(spaces := k.spaces[s := space], flat := k.flat[s := InitialFlat(space)])
    case Read(s, addr, size) =>
      var table := k.spaces[s].table;
      if Outcome(table, addr, size, false) != NoException then k
      else k.(spaces := k.spaces[s := WithTable(k.spaces[s], Marked(table, Page(addr), false))])
    case Write(s, addr, size, value) =>
      if Outcome(k.spaces[s].table, addr, size, true) != NoException then k else Wrote(k, s, addr, size, value)
    case Fault(s, page, victim) => FaultHandled(k, s, page, victim)
    case Exit(s) => Exited(k, s)
  }

  // ---- The invariant ----

  /** Frame `f` holds page `p` of space `s`. */
  predicate Owned(k: State, f: int, s: nat, p: nat) {
    s in k.spaces && p < |k.spaces[s].table| && k.spaces[s].table[p].valid && k.spaces[s].table[p].physicalPage == f
  }

  predicate Taken(k: State, f: nat) {
    f < |k.frames| && k.frames[f]
  }

  /** The frame bitmap marks exactly the frames of valid entries, and no two entries share one. */
  ghost predicate FramesOk(k: State) {
    && (forall f, s, p :: Owned(k, f, s, p) ==> 0 <= f && Taken(k, f))
    && (forall f: nat :: Taken(k, f) ==> exists s, p :: Owned(k, f, s, p))
    && (forall f, s, p, s', p' :: Owned(k, f, s, p) && Owned(k, f, s', p') ==> s == s' && p == p')
  }

  ghost predicate Sane(sp: Space) {
    SpaceOk(sp) && WellLinked(sp.header, sp.file)
  }

  /** What memory holds when a page comes in: the store's copy, or the program's image. */
  function Behind(sp: Space, a: nat): Option<byte>
    requires WellLinked(sp.header, sp.file) && |sp.inStore| == |sp.table| && |sp.store| == PAGE_SIZE * |sp.table|
    requires a < PAGE_SIZE * |sp.table|
  {
    if sp.inStore[a / PAGE_SIZE] then Some(sp.store[a]) else Image(sp.header, sp.file, a)
  }

  /** One byte of flat memory: in its frame if the page is in memory, and behind it unless the page is dirty. */
  ghost predicate ByteOk(sp: Space, memory: seq<byte>, a: nat, b: byte)
    requires Sane(sp) && |memory| == MEMORY_SIZE
  {
    && a < PAGE_SIZE * |sp.table|
    && var e := sp.table[a / PAGE_SIZE];
       (e.valid ==> memory[e.physicalPage * PAGE_SIZE + a % PAGE_SIZE] == b) && (!e.dirty ==> Behind(sp, a) == Some(b))
  }

  ghost predicate Agrees(sp: Space, memory: seq<byte>, m: Flat)
    requires Sane(sp) && |memory| == MEMORY_SIZE
  {
    forall a :: a in m ==> ByteOk(sp, memory, a, m[a])
  }

  ghost predicate SpacesOk(k: State)
    requires |k.memory| == MEMORY_SIZE
  {
    forall s :: s in k.spaces ==> s in k.flat && Sane(k.spaces[s]) && Agrees(k.spaces[s], k.memory, k.flat[s])
  }

  ghost predicate Inv(k: State) {
    |k.memory| == MEMORY_SIZE && |k.frames| == NUM_PHYS_PAGES && FramesOk(k) && SpacesOk(k)
  }

  // ---- Reading ----

  /** A translated read of bytes that flat memory defines yields those bytes. */
  lemma ReadsAgree(k: State, s: nat, addr: int32, size: nat, i: nat)
    requires Inv(k) && s in k.spaces && IsSize(size) && i < size
    requires Outcome(k.spaces[s].table, addr, size, false) == NoException
    ensures var p := PhysicalAddress(k.spaces[s].table, addr);
            0 <= p && p + size <= MEMORY_SIZE
            && (ToWord(addr) + i in k.flat[s] ==> k.memory[p + i] == k.flat[s][ToWord(addr) + i])
  {
    var table, u := k.spaces[s].table, ToWord(addr);
    AccessStaysInFrame(table, addr, size, false);
    if u + i in k.flat[s] {
      assert ByteOk(k.spaces[s], k.memory, u + i, k.flat[s][u + i]);
      assert (u + i) / PAGE_SIZE == Page(addr) && (u + i) % PAGE_SIZE == Offset(addr) + i;
    }
  }

  // ---- What changes when one frame changes ----

  predicate SameOutside(memory: seq<byte>, memory': seq<byte>, frame: nat) {
    && |memory'| == |memory|
    && forall i :: 0 <= i < |memory| && !(frame * PAGE_SIZE <= i < frame * PAGE_SIZE + PAGE_SIZE) ==>
         memory'[i] == memory[i]
  }

  /** A space none of whose pages is in the frame does not notice. */
  lemma OtherFramesAgree(sp: Space, memory: seq<byte>, memory': seq<byte>, frame: nat, m: Flat)
    requires Sane(sp) && |memory| == MEMORY_SIZE && Agrees(sp, memory, m) && SameOutside(memory, memory', frame)
    requires forall p :: 0 <= p < |sp.table| && sp.table[p].valid ==> sp.table[p].physicalPage != frame
    ensures Agrees(sp, memory', m)
  {
    forall a | a in m
      ensures ByteOk(sp, memory', a, m[a])
    {
      assert ByteOk(sp, memory, a, m[a]);
    }
  }

  /** All the other spaces, when `s` changes its frame `frame`. */
  lemma OtherSpacesAgree(k: State, memory': seq<byte>, s: nat, frame: nat, t: nat)
    requires |k.memory| == MEMORY_SIZE && SpacesOk(k) && SameOutside(k.memory, memory', frame)
    requires t in k.spaces && t != s && forall p :: !Owned(k, frame, t, p)
    ensures Agrees(k.spaces[t], memory', k.flat[t])
  {
    var sp := k.spaces[t];
    forall p | 0 <= p < |sp.table| && sp.table[p].valid
      ensures sp.table[p].physicalPage != frame
    {
      assert !Owned(k, frame, t, p);
    }
    OtherFramesAgree(sp, k.memory, memory', frame, k.flat[t]);
  }

  // ---- Writing ----

  /** A write lands in one frame, the page's own. */
  lemma WriteStaysInFrame(k: State, s: nat, addr: int32, size: nat, value: int32)
    requires s in k.spaces && s in k.flat && IsSize(size) && |k.memory| == MEMORY_SIZE
    requires Outcome(k.spaces[s].table, addr, size, true) == NoException
    ensures SameOutside(k.memory, Wrote(k, s, addr, size, value).memory, k.spaces[s].table[Page(addr)].physicalPage)
  {
    AccessStaysInFrame(k.spaces[s].table, addr, size, true);
  }

  lemma WrittenByte(k: State, s: nat, addr: int32, size: nat, value: int32, i: nat)
    requires s in k.spaces && s in k.flat && IsSize(size) && |k.memory| == MEMORY_SIZE && i < size
    requires Outcome(k.spaces[s].table, addr, size, true) == NoException
    requires Sane(Wrote(k, s, addr, size, value).spaces[s])
    ensures var k', a := Wrote(k, s, addr, size, value), ToWord(addr) + i;
            ByteOk(k'.spaces[s], k'.memory, a, BytesOf(value, size)[i])
  {
    AccessStaysInFrame(k.spaces[s].table, addr, size, true);
    var a := ToWord(addr) + i;
    assert a / PAGE_SIZE == Page(addr) && a % PAGE_SIZE == Offset(addr) + i;
  }

  /** Two pages of one space are in different frames. */
  lemma PagesApart(k: State, s: nat, p: nat, q: nat)
    requires FramesOk(k) && s in k.spaces && p < |k.spaces[s].table| && q < |k.spaces[s].table| && p != q
    requires k.spaces[s].table[p].valid && k.spaces[s].table[q].valid
    ensures k.spaces[s].table[p].physicalPage != k.spaces[s].table[q].physicalPage
  {
    assert Owned(k, k.spaces[s].table[p].physicalPage, s, p) && Owned(k, k.spaces[s].table[q].physicalPage, s, q);
  }

  lemma UnwrittenByte(k: State, s: nat, addr: int32, size: nat, value: int32, a: nat, b: byte)
    requires Inv(k) && s in k.spaces && IsSize(size) && Outcome(k.spaces[s].table, addr, size, true) == NoException
    requires Sane(Wrote(k, s, addr, size, value).spaces[s])
    requires !(ToWord(addr) <= a < ToWord(addr) + size) && ByteOk(k.spaces[s], k.memory, a, b)
    ensures var k' := Wrote(k, s, addr, size, value); ByteOk(k'.spaces[s], k'.memory, a, b)
  {
    var table, u: nat := k.spaces[s].table, ToWord(addr);
    var page, q := Page(addr), a / PAGE_SIZE;
    AccessStaysInFrame(table, addr, size, true);
    assert a == q * PAGE_SIZE + a % PAGE_SIZE && u == page * PAGE_SIZE + Offset(addr);
    if q != page && table[q].valid {
      PagesApart(k, s, page, q);
    }
  }

  lemma MarkedKeeps(k: State, s: nat, page: nat, writing: bool)
    requires Inv(k) && s in k.spaces && page < |k.spaces[s].table| && k.spaces[s].table[page].valid
    ensures var sp := WithTable(k.spaces[s], Marked(k.spaces[s].table, page, writing));
            Sane(sp) && forall f, t, p :: Owned(k.(spaces := k.spaces[s := sp]), f, t, p) <==> Owned(k, f, t, p)
  {}

  lemma SameOwners(k: State, k': State)
    requires FramesOk(k) && k'.frames == k.frames
    requires forall f, s, p :: Owned(k', f, s, p) <==> Owned(k, f, s, p)
    ensures FramesOk(k')
  {
    forall f: nat | Taken(k', f)
      ensures exists s, p :: Owned(k', f, s, p)
    {
      assert Taken(k, f);
      var s, p :| Owned(k, f, s, p);
      assert Owned(k', f, s, p);
    }
  }

  lemma WriterAgrees(k: State, s: nat, addr: int32, size: nat, value: int32)
    requires Inv(k) && s in k.spaces && IsSize(size) && Outcome(k.spaces[s].table, addr, size, true) == NoException
    requires Sane(Wrote(k, s, addr, size, value).spaces[s])
    ensures var k' := Wrote(k, s, addr, size, value); Agrees(k'.spaces[s], k'.memory, k'.flat[s])
  {
    var k' := Wrote(k, s, addr, size, value);
    forall a | a in k'.flat[s]
      ensures ByteOk(k'.spaces[s], k'.memory, a, k'.flat[s][a])
    {
      if ToWord(addr) <= a < ToWord(addr) + size {
        WrittenByte(k, s, addr, size, value, a - ToWord(addr));
      } else {
        UnwrittenByte(k, s, addr, size, value, a, k.flat[s][a]);
      }
    }
  }

  lemma WriteKeepsInv(k: State, s: nat, addr: int32, size: nat, value: int32)
    requires Inv(k) && s in k.spaces && IsSize(size) && Outcome(k.spaces[s].table, addr, size, true) == NoException
    ensures Inv(Wrote(k, s, addr, size, value))
  {
    var k', page := Wrote(k, s, addr, size, value), Page(addr);
    var frame := k.spaces[s].table[page].physicalPage;
    MarkedKeeps(k, s, page, true);
    assert forall f, t, p :: Owned(k', f, t, p) <==> Owned(k.(spaces := k'.spaces), f, t, p);
    SameOwners(k, k');
    WriteStaysInFrame(k, s, addr, size, value);
    WriterAgrees(k, s, addr, size, value);
    assert Owned(k, frame, s, page);
    forall t | t in k'.spaces && t != s
      ensures t in k'.flat && Sane(k'.spaces[t]) && Agrees(k'.spaces[t], k'.memory, k'.flat[t])
    {
      OtherSpacesAgree(k, k'.memory, s, frame, t);
    }
  }

  lemma ReadKeepsInv(k: State, s: nat, addr: int32, size: nat)
    requires Inv(k) && s in k.spaces && IsSize(size) && Outcome(k.spaces[s].table, addr, size, false) == NoException
    ensures Inv(Next(k, Read(s, addr, size)))
  {
    var k', page := Next(k, Read(s, addr, size)), Page(addr);
    MarkedKeeps(k, s, page, false);
    SameOwners(k, k');
    forall a | a in k.flat[s]
      ensures ByteOk(k'.spaces[s], k'.memory, a, k.flat[s][a])
    {
      assert ByteOk(k.spaces[s], k.memory, a, k.flat[s][a]);
    }
  }

  // ---- Page faults ----

  /** The state with one space, the memory and the frames replaced. */
  function Put(k: State, s: nat, after: Paged): State {
    k.(memory := after.memory, frames := after.frames, spaces := k.spaces[s := after.space])
  }

  function At(k: State, s: nat): Paged
    requires s in k.spaces
  {
    Paged(k.spaces[s], k.memory, k.frames)
  }

  /** The frame number of a page that is not in memory means nothing. */
  lemma WithFrameAgrees(sp: Space, page: nat, frame: int, memory: seq<byte>, m: Flat)
    requires Sane(sp) && |memory| == MEMORY_SIZE && Agrees(sp, memory, m) && page < |sp.table| && !sp.table[page].valid
    ensures Sane(WithFrame(sp, page, frame)) && Agrees(WithFrame(sp, page, frame), memory, m)
  {
    forall a | a in m
      ensures ByteOk(WithFrame(sp, page, frame), memory, a, m[a])
    {
      assert ByteOk(sp, memory, a, m[a]);
    }
  }

  /** Paging out writes the page's bytes to their places in the store, and no others. */
  lemma PagedOutByte(sp: Space, memory: seq<byte>, victim: nat, a: nat)
    requires Sane(sp) && |memory| == MEMORY_SIZE && victim < |sp.table|
    requires sp.table[victim].valid && a < PAGE_SIZE * |sp.table|
    ensures var saved := PagedOut(sp, memory, victim);
            && |saved.store| == |sp.store|
            && saved.store[a] == if a / PAGE_SIZE == victim
                                 then memory[sp.table[victim].physicalPage * PAGE_SIZE + a % PAGE_SIZE] else sp.store[a]
  {
    var at := victim * PAGE_SIZE;
    assert at + PAGE_SIZE <= |sp.store| && Clip(|sp.store|, PAGE_SIZE, at) == PAGE_SIZE;
    assert a == a / PAGE_SIZE * PAGE_SIZE + a % PAGE_SIZE;
  }

  /** Eviction keeps what the page holds: a dirty page goes to the store, a clean one is already behind it. */
  lemma EvictedAgrees(sp: Space, memory: seq<byte>, victim: nat, m: Flat)
    requires Sane(sp) && |memory| == MEMORY_SIZE && Agrees(sp, memory, m)
    requires victim < |sp.table| && sp.table[victim].valid
    ensures Sane(Evicted(sp, memory, victim)) && Agrees(Evicted(sp, memory, victim), memory, m)
  {
    forall a | a in m
      ensures ByteOk(Evicted(sp, memory, victim), memory, a, m[a])
    {
      assert ByteOk(sp, memory, a, m[a]);
      PagedOutByte(sp, memory, victim, a);
    }
  }

  lemma StoreByte(store: seq<byte>, pages: nat, page: nat, frame: PageData, offset: nat)
    requires |store| == PAGE_SIZE * pages && page < pages && offset < PAGE_SIZE
    ensures ReadInto(frame, 0, store, PAGE_SIZE, page * PAGE_SIZE)[offset] == store[page * PAGE_SIZE + offset]
  {
    var at := page * PAGE_SIZE;
    assert at + PAGE_SIZE <= |store| && Clip(|store|, PAGE_SIZE, at) == PAGE_SIZE;
  }

  /** A page that comes in holds what flat memory says. */
  lemma PagedInByte(sp: Space, page: nat, frame: PageData, a: nat, b: byte)
    requires Sane(sp) && page < |sp.table| && a / PAGE_SIZE == page
    requires a < PAGE_SIZE * |sp.table| && Behind(sp, a) == Some(b)
    ensures PagedIn(sp, page, frame)[a % PAGE_SIZE] == b
  {
    var offset := a % PAGE_SIZE;
    assert a == page * PAGE_SIZE + offset;
    if sp.inStore[page] {
      StoreByte(sp.store, |sp.table|, page, frame, offset);
    } else {
      ImageByteIsLoaded(sp.header, sp.file, page, frame, offset, a);
    }
  }

  /** The space and memory after a page has come into a frame of its own. */
  lemma InstalledAgrees(sp: Space, memory: seq<byte>, page: nat, frame: nat, m: Flat)
    requires Sane(sp) && |memory| == MEMORY_SIZE && Agrees(sp, memory, m)
    requires page < |sp.table| && !sp.table[page].valid && frame < NUM_PHYS_PAGES
    requires forall p :: 0 <= p < |sp.table| && sp.table[p].valid ==> sp.table[p].physicalPage != frame
    ensures var memory' := Splice(memory, frame * PAGE_SIZE, PagedIn(sp, page, Frame(memory, frame)));
            var sp' := MadeValid(WithFrame(sp, page, frame), page);
            Sane(sp') && Agrees(sp', memory', m) && SameOutside(memory, memory', frame)
  {
    var memory' := Splice(memory, frame * PAGE_SIZE, PagedIn(sp, page, Frame(memory, frame)));
    var sp' := MadeValid(WithFrame(sp, page, frame), page);
    OtherFramesAgree(sp, memory, memory', frame, m);
    InstalledSane(sp, page, frame);
    forall a | a in m
      ensures ByteOk(sp', memory', a, m[a])
    {
      assert ByteOk(sp, memory', a, m[a]);
      InstalledByte(sp, memory', page, frame, Frame(memory, frame), a, m[a]);
    }
  }

  lemma InstalledSane(sp: Space, page: nat, frame: nat)
    requires Sane(sp) && page < |sp.table| && frame < NUM_PHYS_PAGES
    ensures Sane(MadeValid(WithFrame(sp, page, frame), page))
  {}

  lemma InstalledByte(sp: Space, memory: seq<byte>, page: nat, frame: nat, before: PageData, a: nat, b: byte)
    requires Sane(sp) && |memory| == MEMORY_SIZE && page < |sp.table| && frame < NUM_PHYS_PAGES
    requires ByteOk(sp, memory, a, b) && !sp.table[page].valid && Frame(memory, frame) == PagedIn(sp, page, before)
    requires Sane(MadeValid(WithFrame(sp, page, frame), page))
    ensures ByteOk(MadeValid(WithFrame(sp, page, frame), page), memory, a, b)
  {
    if a / PAGE_SIZE == page {
      PagedInByte(sp, page, before, a, b);
      FrameByte(memory, frame, a % PAGE_SIZE);
    }
  }

  lemma FrameByte(memory: seq<byte>, frame: nat, offset: nat)
    requires |memory| == MEMORY_SIZE && frame < NUM_PHYS_PAGES && offset < PAGE_SIZE
    ensures Frame(memory, frame)[offset] == memory[frame * PAGE_SIZE + offset]
  {}

  lemma FreedFrames(k: State, k': State, s: nat, victim: nat, frame: nat)
    requires FramesOk(k) && Owned(k, frame, s, victim) && frame < |k.frames| && k'.frames == k.frames[frame := false]
    requires forall f, t, p :: Owned(k', f, t, p) <==> Owned(k, f, t, p) && !(t == s && p == victim)
    ensures FramesOk(k')
  {
    forall f, t, p | Owned(k', f, t, p)
      ensures 0 <= f && Taken(k', f)
    {
      assert Owned(k, f, t, p);
    }
    forall f: nat | Taken(k', f)
      ensures exists t, p :: Owned(k', f, t, p)
    {
      assert Taken(k, f);
      var t, p :| Owned(k, f, t, p);
      assert Owned(k', f, t, p);
    }
  }

  lemma GivenFrames(k: State, k': State, s: nat, page: nat, frame: nat)
    requires FramesOk(k) && frame < |k.frames| && !k.frames[frame] && k'.frames == k.frames[frame := true]
    requires forall f, t, p :: Owned(k', f, t, p) <==> Owned(k, f, t, p) || (f == frame && t == s && p == page)
    ensures FramesOk(k')
  {
    assert !Taken(k, frame);
    forall f: nat | Taken(k', f)
      ensures exists t, p :: Owned(k', f, t, p)
    {
      if f == frame {
        assert Owned(k', f, s, page);
      } else {
        assert Taken(k, f);
        var t, p :| Owned(k, f, t, p);
        assert Owned(k', f, t, p);
      }
    }
  }

  lemma MadeRoomKeepsInv(k: State, s: nat, page: nat, victim: nat)
    requires Inv(k) && s in k.spaces && CanFault(At(k, s), page, victim) && FirstClear(k.frames, 0) == -1
    ensures Inv(Put(k, s, MadeRoom(At(k, s), page, victim)))
  {
    var sp := k.spaces[s];
    var k' := Put(k, s, MadeRoom(At(k, s), page, victim));
    WithFrameAgrees(sp, page, -1, k.memory, k.flat[s]);
    EvictedAgrees(WithFrame(sp, page, -1), k.memory, victim, k.flat[s]);
    assert Owned(k, sp.table[victim].physicalPage, s, victim);
    FreedFrames(k, k', s, victim, sp.table[victim].physicalPage);
  }

  lemma InstalledKeepsInv(k: State, s: nat, page: nat, frame: nat)
    requires Inv(k) && s in k.spaces && page < |k.spaces[s].table| && !k.spaces[s].table[page].valid
    requires frame < NUM_PHYS_PAGES && !k.frames[frame]
    ensures Inv(Put(k, s, Handled(At(k, s), page, frame)))
  {
    var k' := Put(k, s, Handled(At(k, s), page, frame));
    assert !Taken(k, frame);
    forall t, p
      ensures !Owned(k, frame, t, p)
    {
    }
    forall p | 0 <= p < |k.spaces[s].table| && k.spaces[s].table[p].valid
      ensures k.spaces[s].table[p].physicalPage != frame
    {
      assert !Owned(k, frame, s, p);
    }
    InstalledAgrees(k.spaces[s], k.memory, page, frame, k.flat[s]);
    GivenFrames(k, k', s, page, frame);
    forall t | t in k'.spaces
      ensures t in k'.flat && Sane(k'.spaces[t]) && Agrees(k'.spaces[t], k'.memory, k'.flat[t])
    {
      if t != s {
        OtherSpacesAgree(k, k'.memory, s, frame, t);
      }
    }
  }

  lemma PutTwice(k: State, s: nat, after: Paged, after': Paged)
    ensures Put(Put(k, s, after), s, after') == Put(k, s, after')
    ensures s in Put(k, s, after).spaces && At(Put(k, s, after), s) == after
  {
    assert k.spaces[s := after.space][s := after'.space] == k.spaces[s := after'.space];
  }

  /** The handler, and the page made valid: into a free frame, or after making room. */
  function Handled(k: Paged, page: nat, frame: nat): Paged
    requires page < |k.space.table| == |k.space.inStore|
    requires |k.memory| == MEMORY_SIZE && frame < NUM_PHYS_PAGES <= |k.frames|
  {
    var after := Installed(k.(frames := k.frames[frame := true]), page, frame);
    after.(space := MadeValid(after.space, page))
  }

  lemma HandledIs(k: State, s: nat, page: nat, victim: nat)
    requires s in k.spaces && CanFault(At(k, s), page, victim)
    ensures FirstClear(k.frames, 0) != -1 ==>
              FaultHandled(k, s, page, victim) == Put(k, s, Handled(At(k, s), page, FirstClear(k.frames, 0)))
    ensures FirstClear(k.frames, 0) == -1 ==>
              var room := MadeRoom(At(k, s), page, victim);
              FirstClear(room.frames, 0) != -1
              && FaultHandled(k, s, page, victim) == Put(k, s, Handled(room, page, FirstClear(room.frames, 0)))
  {
    if FirstClear(k.frames, 0) == -1 {
      FreedFrameIsFound(k.frames, k.spaces[s].table[victim].physicalPage);
    }
  }

  lemma FaultKeepsInv(k: State, s: nat, page: nat, victim: nat)
    requires Inv(k) && s in k.spaces && CanFault(At(k, s), page, victim)
    ensures Inv(FaultHandled(k, s, page, victim))
  {
    HandledIs(k, s, page, victim);
    if FirstClear(k.frames, 0) == -1 {
      var room := MadeRoom(At(k, s), page, victim);
      var frame := FirstClear(room.frames, 0);
      MadeRoomKeepsInv(k, s, page, victim);
      PutTwice(k, s, room, Handled(room, page, frame));
      InstalledKeepsInv(Put(k, s, room), s, page, frame);
    } else {
      InstalledKeepsInv(k, s, page, FirstClear(k.frames, 0));
    }
  }

  // ---- Programs that start and exit ----

  lemma StartKeepsInv(k: State, s: nat, space: Space, readOnly: bool)
    requires Inv(k) && s !in k.spaces && Fresh(space, readOnly)
    ensures Inv(Next(k, Start(s, space, readOnly)))
  {
    var k' := Next(k, Start(s, space, readOnly));
    assert forall p :: 0 <= p < |space.table| ==> !space.table[p].valid && !space.table[p].dirty;
    assert forall f, t, p :: Owned(k', f, t, p) <==> Owned(k, f, t, p);
    SameOwners(k, k');
    forall a | a in k'.flat[s]
      ensures ByteOk(space, k.memory, a, k'.flat[s][a])
    {
    }
  }

  /** Exit gives back exactly the frames of the pages in memory. */
  lemma {:induction false} ReleasedAt(table: seq<Entry>, frames: seq<bool>, n: nat, f: nat)
    requires n <= |table| && f < |frames|
    ensures Released(table, frames, n)[f]
            <==> frames[f] && forall p :: 0 <= p < n && table[p].valid ==> table[p].physicalPage != f
  {
    if n > 0 {
      ReleasedAt(table, frames, n - 1, f);
    }
  }

  lemma ExitFrames(k: State, s: nat)
    requires FramesOk(k) && s in k.spaces
    ensures FramesOk(Exited(k, s))
  {
    var k', table := Exited(k, s), k.spaces[s].table;
    forall f, t, p | Owned(k', f, t, p)
      ensures 0 <= f && Taken(k', f)
    {
      assert Owned(k, f, t, p);
      ReleasedAt(table, k.frames, |table|, f);
      forall q | 0 <= q < |table| && table[q].valid
        ensures table[q].physicalPage != f
      {
        assert table[q].physicalPage == f ==> Owned(k, f, s, q);
      }
    }
    forall f: nat | Taken(k', f)
      ensures exists t, p :: Owned(k', f, t, p)
    {
      ReleasedAt(table, k.frames, |table|, f);
      assert Taken(k, f);
      var t, p :| Owned(k, f, t, p);
      assert Owned(k', f, t, p);
    }
    assert forall f, t, p :: Owned(k', f, t, p) ==> Owned(k, f, t, p);
  }

  lemma NextKeepsInv(k: State, a: Action)
    requires Inv(k) && Enabled(k, a)
    ensures Inv(Next(k, a))
  {
    match a
    case Start(s, space, readOnly) => StartKeepsInv(k, s, space, readOnly);
    case Read(s, addr, size) =>
      if Outcome(k.spaces[s].table, addr, size, false) == NoException {
        ReadKeepsInv(k, s, addr, size);
      }
    case Write(s, addr, size, value) =>
      if Outcome(k.spaces[s].table, addr, size, true) == NoException {
        WriteKeepsInv(k, s, addr, size, value);
      }
    case Fault(s, page, victim) => FaultKeepsInv(k, s, page, victim);
    case Exit(s) => ExitFrames(k, s);
  }

  // ---- Runs ----

  /** The machine as it starts: no program, every frame free, memory whatever it is. */
  ghost predicate Boot(k: State) {
    && |k.memory| == MEMORY_SIZE && |k.frames| == NUM_PHYS_PAGES
    && k.spaces == map[] && k.flat == map[] && forall f :: 0 <= f < NUM_PHYS_PAGES ==> !k.frames[f]
  }

  ghost predicate Reaches(k: State, run: seq<Action>, k': State)
    decreases |run|
  {
    if run == [] then k' == k else Enabled(k, run[0]) && Reaches(Next(k, run[0]), run[1..], k')
  }

  lemma {:induction false} RunKeepsInv(k: State, run: seq<Action>, k': State)
    requires Inv(k) && Reaches(k, run, k')
    ensures Inv(k')
    decreases |run|
  {
    if run != [] {
      NextKeepsInv(k, run[0]);
      RunKeepsInv(Next(k, run[0]), run[1..], k');
    }
  }

  function FlatBytes(m: Flat, address: nat, size: nat): (b: Data)
    requires forall a :: address <= a < address + size ==> a in m
    ensures |b| == size
  {
    seq(size, i requires 0 <= i < size => m[address + i])
  }

  lemma ReadsFlatBytes(k: State, s: nat, addr: int32, size: nat)
    requires Inv(k) && s in k.spaces && IsSize(size) && Outcome(k.spaces[s].table, addr, size, false) == NoException
    requires forall a :: ToWord(addr) <= a < ToWord(addr) + size ==> a in k.flat[s]
    ensures var p := PhysicalAddress(k.spaces[s].table, addr);
            0 <= p && p + size <= |k.memory| && k.memory[p..p + size] == FlatBytes(k.flat[s], ToWord(addr), size)
  {
    AccessStaysInFrame(k.spaces[s].table, addr, size, false);
    ReadsFlatBytesAt(k, s, addr, size, PhysicalAddress(k.spaces[s].table, addr));
  }

  lemma ReadsFlatBytesAt(k: State, s: nat, addr: int32, size: nat, p: nat)
    requires Inv(k) && s in k.spaces && IsSize(size) && Outcome(k.spaces[s].table, addr, size, false) == NoException
    requires forall a :: ToWord(addr) <= a < ToWord(addr) + size ==> a in k.flat[s]
    requires p == PhysicalAddress(k.spaces[s].table, addr) && p + size <= |k.memory|
    ensures k.memory[p..p + size] == FlatBytes(k.flat[s], ToWord(addr), size)
  {
    forall i | 0 <= i < size
      ensures k.memory[p + i] == FlatBytes(k.flat[s], ToWord(addr), size)[i]
    {
      ReadsAgree(k, s, addr, size, i);
    }
    SliceIs(k.memory, p, FlatBytes(k.flat[s], ToWord(addr), size));
  }

  lemma SliceIs(memory: seq<byte>, p: nat, b: Data)
    requires p + |b| <= |memory| && forall i :: 0 <= i < |b| ==> memory[p + i] == b[i]
    ensures memory[p..p + |b|] == b
  {}

  /** Paging is invisible: in every reachable state, reading bytes that the program can rely on yields what its flat
    memory holds, however often the pages involved have been evicted and brought back. */
  lemma PagingIsInvisible(boot: State, run: seq<Action>, k: State, s: nat, addr: int32, size: nat)
    requires Boot(boot) && Reaches(boot, run, k) && s in k.spaces && s in k.flat && IsSize(size)
    requires Outcome(k.spaces[s].table, addr, size, false) == NoException
    requires forall a :: ToWord(addr) <= a < ToWord(addr) + size ==> a in k.flat[s]
    ensures var p := PhysicalAddress(k.spaces[s].table, addr);
            0 <= p && p + size <= |k.memory|
            && ValueOf(k.memory[p..p + size]) == ValueOf(FlatBytes(k.flat[s], ToWord(addr), size))
  {
    RunKeepsInv(boot, run, k);
    ReadsFlatBytes(k, s, addr, size);
  }

  /** After a fault has been handled, the access that caused it goes through, unless it was not allowed. */
  lemma FaultsAreResolved(k: State, s: nat, addr: int32, size: nat, writing: bool, victim: nat)
    requires Inv(k) && s in k.spaces && CanFault(At(k, s), Page(addr), victim)
    requires Outcome(k.spaces[s].table, addr, size, writing) == PageFaultException
    ensures var table := FaultHandled(k, s, Page(addr), victim).spaces[s].table;
            Outcome(table, addr, size, writing)
            == if k.spaces[s].table[Page(addr)].readOnly && writing then ReadOnlyException else NoException
  {
    FaultKeepsInv(k, s, Page(addr), victim);
    HandledIs(k, s, Page(addr), victim);
  }

  /** Flat memory really is flat: only a program's own start, exit and successful writes touch it. */
  lemma FlatIsFlat(k: State, a: Action, t: nat)
    requires Inv(k) && Enabled(k, a) && t in k.spaces && t != a.s
    ensures t in Next(k, a).spaces && t in Next(k, a).flat && Next(k, a).flat[t] == k.flat[t]
    ensures a.Read? || a.Fault? ==> Next(k, a).flat == k.flat
  {}

  /** In every reachable state the frame bitmap marks exactly the frames of valid entries, no two entries share a
    frame, and a write changes no byte outside the frame of the page written. */
  lemma FramesAreExclusive(boot: State, run: seq<Action>, k: State, s: nat, addr: int32, size: nat, value: int32)
    requires Boot(boot) && Reaches(boot, run, k)
    ensures FramesOk(k)
    ensures Enabled(k, Write(s, addr, size, value)) && Outcome(k.spaces[s].table, addr, size, true) == NoException ==>
              var k', frame := Next(k, Write(s, addr, size, value)), k.spaces[s].table[Page(addr)].physicalPage;
              && 0 <= frame && SameOutside(k.memory, k'.memory, frame)
              && forall t, p :: Owned(k, frame, t, p) ==> t == s && p == Page(addr)
  {
    RunKeepsInv(boot, run, k);
    if Enabled(k, Write(s, addr, size, value)) && Outcome(k.spaces[s].table, addr, size, true) == NoException {
      WriteStaysInFrame(k, s, addr, size, value);
      assert Owned(k, k.spaces[s].table[Page(addr)].physicalPage, s, Page(addr));
    }
  }
}
