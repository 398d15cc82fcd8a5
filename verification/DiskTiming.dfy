/** How long the simulated disk takes: seek, rotation, transfer, and the track buffer.

  Time is cut into slots of ROTATION_TIME ticks; during slot q the sector at offset q % SECTORS_PER_TRACK of the
  current track passes under the head. The counts of ticks are exact integers here; the source keeps them in an
  `int` and gives up at the end of time. */
module DiskTiming {
  import opened Sectors

  const SECTORS_PER_TRACK: nat := 32
  const SEEK_TIME: nat := 500
  const ROTATION_TIME: nat := 500

  // ---- What the numbers mean ----

  function Track(sector: nat): nat {
    sector / SECTORS_PER_TRACK
  }

  function Distance(a: nat, b: nat): nat {
    if a <= b then b - a else a - b
  }

  /** Time for the head to get from one sector's track to another's. */
  function Seek(from: nat, to: nat): nat {
    Distance(Track(from), Track(to)) * SEEK_TIME
  }

  predicate PassesIn(slot: int, sector: nat) {
    slot % SECTORS_PER_TRACK == sector % SECTORS_PER_TRACK
  }

  /** `end` is a moment at which the sector has just passed the head completely, the passage lying after `start`. */
  predicate FinishesPassing(sector: nat, start: int, end: int) {
    end % ROTATION_TIME == 0 && start <= end - ROTATION_TIME && PassesIn(end / ROTATION_TIME - 1, sector)
  }

  /** The first such moment. */
  ghost predicate FirstFinishes(sector: nat, start: int, end: int) {
    FinishesPassing(sector, start, end) && forall e :: FinishesPassing(sector, start, e) ==> end <= e
  }

  ghost predicate PassedBetween(sector: nat, start: int, end: int) {
    exists e :: e <= end && FinishesPassing(sector, start, e)
  }

  /** The first slot boundary at or after a moment. */
  predicate IsNextBoundary(moment: int, boundary: int) {
    boundary % ROTATION_TIME == 0 && moment <= boundary < moment + ROTATION_TIME
  }

  /** A read that can be had from the track buffer: the head stays on its track, and the sector passes completely
    between the start of buffering and the next boundary. */
  ghost predicate InBuffer(last: nat, bufferInit: nat, newSector: nat, boundary: int) {
    Track(newSector) == Track(last) && PassedBetween(newSector, bufferInit, boundary)
  }

  /** How long a request takes: a read from the buffer costs one transfer; any other request ends at the first
    moment at which the sector has finished passing under the head after the seek. */
  ghost predicate IsLatency(last: nat, bufferInit: nat, newSector: nat, writing: bool, now: nat, latency: nat) {
    forall boundary :: IsNextBoundary(now, boundary) ==>
      if !writing && InBuffer(last, bufferInit, newSector, boundary) then latency == ROTATION_TIME
      else FirstFinishes(newSector, now + Seek(last, newSector), now + latency)
  }

  /** The track buffer starts afresh after a seek, at the first boundary. */
  predicate IsNewStart(last: nat, bufferInit: nat, newSector: nat, now: nat, start: int) {
    if Track(newSector) == Track(last) then start == bufferInit
    else IsNextBoundary(now + Seek(last, newSector), start)
  }

  /** What a seek takes: nothing on one track, SEEK_TIME to a neighbouring one, as much there as back, and on the way
    past a track as much as to it and from it on. */
  lemma SeeksAddUp(a: nat, b: nat, c: nat)
    ensures Seek(a, b) == 0 <==> a / SECTORS_PER_TRACK == b / SECTORS_PER_TRACK
    ensures b / SECTORS_PER_TRACK == a / SECTORS_PER_TRACK + 1 ==> Seek(a, b) == SEEK_TIME
    ensures Seek(a, b) == Seek(b, a)
    ensures a / SECTORS_PER_TRACK <= b / SECTORS_PER_TRACK <= c / SECTORS_PER_TRACK ==>
              Seek(a, c) == Seek(a, b) + Seek(b, c)
  {
    var x, y, z := Track(a), Track(b), Track(c);
    if x <= y <= z {
      assert (z - x) * SEEK_TIME == (y - x) * SEEK_TIME + (z - y) * SEEK_TIME;
    }
  }

  // ---- Slots ----

  /** From slot `p` on, the sector passes first in the slot that lies ModuloDiff after it. */
  lemma FirstSlot(sector: nat, p: nat, d: nat)
    requires d == (sector % SECTORS_PER_TRACK - p % SECTORS_PER_TRACK + SECTORS_PER_TRACK) % SECTORS_PER_TRACK
    ensures d < SECTORS_PER_TRACK && PassesIn(p + d, sector)
    ensures forall q: int :: p <= q && PassesIn(q, sector) ==> p + d <= q
  {
    var a, b := sector % 32, p % 32;
    assert p == 32 * (p / 32) + b && d == if b <= a then a - b else a - b + 32;
    assert p + d == 32 * (p / 32 + if b <= a then 0 else 1) + a;
    forall q: int | p <= q && PassesIn(q, sector)
      ensures p + d <= q
    {
      assert q == 32 * (q / 32) + a;
    }
  }

  /** The sector first finishes passing one slot after that. */
  lemma FirstPassage(sector: nat, start: nat, boundary: nat, d: nat)
    requires IsNextBoundary(start, boundary)
    requires d == (sector % SECTORS_PER_TRACK - boundary / ROTATION_TIME % SECTORS_PER_TRACK
                    + SECTORS_PER_TRACK) % SECTORS_PER_TRACK
    ensures FirstFinishes(sector, start, boundary + (d + 1) * ROTATION_TIME)
  {
    var p := boundary / ROTATION_TIME;
    FirstSlot(sector, p, d);
    var end := boundary + (d + 1) * ROTATION_TIME;
    assert boundary == p * 500 && end == (p + d + 1) * 500;
    assert end / ROTATION_TIME - 1 == p + d;
    forall e | FinishesPassing(sector, start, e)
      ensures end <= e
    {
      var q := e / ROTATION_TIME - 1;
      assert e == (q + 1) * 500 && p <= q;
    }
  }

  /** Between two slot boundaries a sector passes exactly if they are far enough apart. */
  lemma PassageInBuffer(sector: nat, start: nat, end: nat, d: nat)
    requires start % ROTATION_TIME == 0 && end % ROTATION_TIME == 0 && start <= end
    requires d == (sector % SECTORS_PER_TRACK - start / ROTATION_TIME % SECTORS_PER_TRACK
                    + SECTORS_PER_TRACK) % SECTORS_PER_TRACK
    ensures (end - start) / ROTATION_TIME > d <==> PassedBetween(sector, start, end)
  {
    FirstPassage(sector, start, start, d);
    var first := start + (d + 1) * ROTATION_TIME;
    assert (end - start) / ROTATION_TIME > d <==> first <= end;
    if first <= end {
      assert FinishesPassing(sector, start, first);
    }
  }

  // ---- The disk ----

  class Disk {
    var active: bool
    var lastSector: nat
    var bufferInit: nat
    /** When the last request completes or completed. */
    ghost var completion: nat

    ghost predicate Valid()
      reads this
    {
      lastSector < NUM_SECTORS && bufferInit % ROTATION_TIME == 0 && bufferInit <= completion
    }

    constructor ()
      ensures Valid() && !active && lastSector == 0 && bufferInit == 0 && completion == 0
    {
      active, lastSector, bufferInit, completion := false, 0, 0, 0;
    }

    /** Seek time, and how long until the next sector boundary after it. */
    method TimeToSeek(newSector: nat, now: nat) returns (seek: nat, rotation: nat)
      ensures seek == Seek(lastSector, newSector)
      ensures rotation < ROTATION_TIME && IsNextBoundary(now + seek, now + seek + rotation)
    {
      var newTrack, oldTrack := newSector / SECTORS_PER_TRACK, lastSector / SECTORS_PER_TRACK;
      seek := (if newTrack < oldTrack then oldTrack - newTrack else newTrack - oldTrack) * SEEK_TIME;
      var over := (now + seek) % ROTATION_TIME;
      rotation := 0;
      if over > 0 {
        rotation := ROTATION_TIME - over;
      }
    }

    /** Sectors of rotational delay between two positions. */
    static function ModuloDiff(to: nat, from: nat): (d: nat)
      ensures d < SECTORS_PER_TRACK && PassesIn(from + d, to)
      ensures forall q: int :: from <= q && PassesIn(q, to) ==> from + d <= q
    {
      var d := (to % SECTORS_PER_TRACK - from % SECTORS_PER_TRACK + SECTORS_PER_TRACK) % SECTORS_PER_TRACK;
      FirstSlot(to, from, d);
      d
    }

    method ComputeLatency(newSector: nat, writing: bool, now: nat) returns (latency: nat)
      requires Valid() && completion <= now
      ensures ROTATION_TIME <= latency < Seek(lastSector, newSector) + (SECTORS_PER_TRACK + 1) * ROTATION_TIME
      ensures IsLatency(lastSector, bufferInit, newSector, writing, now, latency)
    {
      var seek, rotation := TimeToSeek(newSector, now);
      var timeAfter := now + seek + rotation;
      assert seek == 0 <==> Track(newSector) == Track(lastSector);
      assert forall b :: seek == 0 && IsNextBoundary(now, b) ==> b == timeAfter;
      if seek == 0 {
        PassageInBuffer(newSector, bufferInit, timeAfter, ModuloDiff(newSector, bufferInit / ROTATION_TIME));
      }
      if !writing && seek == 0
         && (timeAfter - bufferInit) / ROTATION_TIME > ModuloDiff(newSector, bufferInit / ROTATION_TIME) {
        return ROTATION_TIME;
      }
      FirstPassage(newSector, now + seek, timeAfter, ModuloDiff(newSector, timeAfter / ROTATION_TIME));
      rotation := rotation + ModuloDiff(newSector, timeAfter / ROTATION_TIME) * ROTATION_TIME;
      return seek + rotation + ROTATION_TIME;
    }

    method UpdateLast(newSector: nat, now: nat)
      requires newSector < NUM_SECTORS && bufferInit % ROTATION_TIME == 0
      modifies `lastSector, `bufferInit
      ensures lastSector == newSector && bufferInit % ROTATION_TIME == 0
      ensures IsNewStart(old(lastSector), old(bufferInit), newSector, now, bufferInit)
    {
      var seek, rotate := TimeToSeek(newSector, now);
      if seek != 0 {
        bufferInit := now + seek + rotate;
      }
      lastSector := newSector;
    }

    /** ReadRequest and WriteRequest, apart from the data: how long until the interrupt. When it comes, the sector
      has passed the head completely since the buffer was started. */
    method Request(newSector: nat, writing: bool, now: nat) returns (ticks: nat)
      requires Valid() && !active && completion <= now && newSector < NUM_SECTORS
      modifies this
      ensures Valid() && active && lastSector == newSector && completion == now + ticks
      ensures ROTATION_TIME <= ticks < Seek(old(lastSector), newSector) + (SECTORS_PER_TRACK + 1) * ROTATION_TIME
      ensures IsLatency(old(lastSector), old(bufferInit), newSector, writing, now, ticks)
      ensures IsNewStart(old(lastSector), old(bufferInit), newSector, now, bufferInit)
      ensures PassedBetween(newSector, bufferInit, completion)
    {
      ticks := ComputeLatency(newSector, writing, now);
      ghost var last, init := lastSector, bufferInit;
      UpdateLast(newSector, now);
      SectorGetsBuffered(last, init, newSector, writing, now, ticks, bufferInit);
      active := true;
      completion := now + ticks;
    }

    /** The interrupt comes when the request is complete, and the disk is free for the next. */
    method HandleInterrupt(now: nat)
      requires Valid() && active && completion <= now
      modifies `active
      ensures Valid() && !active
    {
      active := false;
    }
  }

  // ---- The track buffer ----

  function NextBoundary(moment: nat): (b: nat)
    ensures IsNextBoundary(moment, b)
  {
    moment + if moment % ROTATION_TIME == 0 then 0 else ROTATION_TIME - moment % ROTATION_TIME
  }

  /** Either the sector was in the buffer, or it passes the head, and so gets into the buffer, by the end. */
  lemma SectorGetsBuffered(last: nat, bufferInit: nat, newSector: nat, writing: bool, now: nat, latency: nat,
                           start: nat)
    requires bufferInit <= now && ROTATION_TIME <= latency
    requires IsLatency(last, bufferInit, newSector, writing, now, latency)
    requires IsNewStart(last, bufferInit, newSector, now, start)
    ensures start <= now + latency && PassedBetween(newSector, start, now + latency)
  {
    var boundary := NextBoundary(now);
    if !writing && InBuffer(last, bufferInit, newSector, boundary) {
      var e :| e <= boundary && FinishesPassing(newSector, bufferInit, e);
      assert e <= now + latency;
    } else {
      assert FinishesPassing(newSector, now + Seek(last, newSector), now + latency);
      assert FinishesPassing(newSector, start, now + latency);
    }
  }

  /** Once a request for a sector is complete, reading that sector again costs one transfer, however much later. */
  lemma RereadIsBuffered(sector: nat, bufferInit: nat, completion: nat, now: nat, latency: nat)
    requires PassedBetween(sector, bufferInit, completion) && completion <= now
    requires IsLatency(sector, bufferInit, sector, false, now, latency)
    ensures latency == ROTATION_TIME
  {
    var e :| e <= completion && FinishesPassing(sector, bufferInit, e);
    assert e <= NextBoundary(now);
  }
}
