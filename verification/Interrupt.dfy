/** The interrupt simulation: a clock, and pending interrupts in the order of their times.

  What a handler does to the simulation is schedule further interrupts, each at least one tick ahead, and ask for
  a context switch; which of these it does is left open, as a function of the interrupt and of how many were
  fired before. Times are exact integers here; the source panics when an `int` runs out. */
module Interrupts {
  import opened Lists

  datatype Kind = TimerInt | DiskInt | ConsoleWriteInt | ConsoleReadInt | NetworkSendInt | NetworkRecvInt
  datatype Mode = IdleMode | SystemMode | UserMode

  datatype Event = Event(kind: Kind, arg: int)

  type Delay = d: nat | d > 0 witness 1

  /** What a handler can do to the simulation. */
  datatype Call = Schedule(event: Event, fromNow: Delay) | YieldOnReturn

  type Handler = (Event, nat) -> seq<Call>

  type Pending = seq<Element<Event>>

  const SYSTEM_TICK: nat := 10
  const USER_TICK: nat := 1

  /** An interrupt that was fired: when it was due and when it came. */
  datatype Firing = Firing(event: Event, due: int, at: int)

  datatype Clock = Clock(total: nat, idle: nat, system: nat, user: nat)

  datatype Sim = Sim(pending: Pending, clock: Clock, status: Mode, yieldOnReturn: bool, fired: seq<Firing>)

  // ---- The code, on values ----

  function Scheduled(s: Sim, event: Event, fromNow: nat): Sim {
    s.(pending := SortedInsertion(s.pending, event, s.clock.total + fromNow))
  }

  function Handled(s: Sim, calls: seq<Call>): Sim {
    if calls == [] then s
    else
      var before, last := Handled(s, calls[..|calls| - 1]), calls[|calls| - 1];
      if last.Schedule? then Scheduled(before, last.event, last.fromNow) else before.(yieldOnReturn := true)
  }

  /** Time spent idle until an interrupt that lies ahead. */
  function Advanced(c: Clock, when: int): Clock {
    if when > c.total then c.(idle := c.idle + (when - c.total), total := when) else c
  }

  /** Firing an interrupt that is off the list. */
  function Fired(s: Sim, toOccur: Event, when: int, h: Handler): Sim {
    Handled(s.(fired := s.fired + [Firing(toOccur, when, s.clock.total)]), h(toOccur, |s.fired|))
  }

  /** The second half of CheckIfDue, with the interrupt off the list. */
  function FiredUnlessDone(s: Sim, toOccur: Event, when: int, h: Handler): (Sim, bool) {
    if s.status == IdleMode && toOccur.kind == TimerInt && s.pending == [] then
      (s.(pending := SortedInsertion(s.pending, toOccur, when)), false)
    else (Fired(s, toOccur, when, h), true)
  }

  /** One call of CheckIfDue, with what it returns. */
  function Check(s: Sim, advanceClock: bool, h: Handler): (Sim, bool) {
    if s.pending == [] then (s, false)
    else
      var e, rest := s.pending[0], s.pending[1..];
      if e.key > s.clock.total && !advanceClock then (s.(pending := SortedInsertion(rest, e.item, e.key)), false)
      else FiredUnlessDone(s.(clock := Advanced(s.clock, e.key), pending := rest), e.item, e.key, h)
  }

  // ---- One call ----

  ghost predicate InOrder(q: Pending) {
    Sorted(q) && forall i :: 0 <= i < |q| ==> q[i].key >= 0
  }

  /** Every tick is accounted for. */
  predicate Adds(c: Clock) {
    c.total == c.idle + c.system + c.user
  }

  /** Nothing was fired early, or is yet to come. */
  ghost predicate OnTime(fired: seq<Firing>, now: int) {
    forall i :: 0 <= i < |fired| ==> fired[i].due <= fired[i].at <= now
  }

  ghost predicate Ok(s: Sim) {
    InOrder(s.pending) && Adds(s.clock) && OnTime(s.fired, s.clock.total)
  }

  /** How many interrupts are due. */
  function Due(s: Sim): nat {
    Place(s.pending, s.clock.total, 0)
  }

  /** Insertion of something not yet due leaves the due ones alone. */
  lemma InsertionBehindDue(q: Pending, item: Event, when: int, now: int)
    requires Sorted(q) && when > now
    ensures Place(SortedInsertion(q, item, when), now, 0) == Place(q, now, 0)
  {
    var n, p, r := Place(q, now, 0), Place(q, when, 0), SortedInsertion(q, item, when);
    InsertionIndex(q, item, when);
    PlaceIs(r, now, 0, n);
  }

  lemma InsertionInOrder(q: Pending, item: Event, when: nat)
    requires InOrder(q)
    ensures InOrder(SortedInsertion(q, item, when))
  {
    InsertionKeepsOrder(q, item, when);
    InsertionIndex(q, item, when);
  }

  lemma ScheduledKeeps(s: Sim, event: Event, fromNow: nat)
    requires Ok(s) && fromNow > 0
    ensures Ok(Scheduled(s, event, fromNow)) && Due(Scheduled(s, event, fromNow)) == Due(s)
  {
    var q, when := s.pending, s.clock.total + fromNow;
    InsertionInOrder(q, event, when);
    InsertionBehindDue(q, event, when, s.clock.total);
    ScheduledIs(s, event, fromNow, SortedInsertion(q, event, when));
  }

  lemma ScheduledIs(s: Sim, event: Event, fromNow: nat, r: Pending)
    requires r == SortedInsertion(s.pending, event, s.clock.total + fromNow)
    ensures Scheduled(s, event, fromNow) == s.(pending := r) && Due(s.(pending := r)) == Place(r, s.clock.total, 0)
  {}

  lemma DueIs(q: Pending, now: nat, n: nat)
    requires Sorted(q) && n == Place(q, now, 0)
    ensures forall i :: 0 <= i < |q| ==> (q[i].key <= now <==> i < n)
  {
    forall i | n <= i < |q|
      ensures q[i].key > now
    {
      assert q[n].key <= q[i].key;
    }
  }

  lemma {:induction false} HandledKeeps(s: Sim, calls: seq<Call>)
    requires Ok(s)
    ensures Ok(Handled(s, calls)) && Due(Handled(s, calls)) == Due(s)
    ensures var s' := Handled(s, calls); s'.clock == s.clock && s'.status == s.status && s'.fired == s.fired
  {
    if calls != [] {
      var before, last := calls[..|calls| - 1], calls[|calls| - 1];
      HandledKeeps(s, before);
      if last.Schedule? {
        ScheduledKeeps(Handled(s, before), last.event, last.fromNow);
      }
    }
  }

  function FiredFirst(s: Sim, h: Handler): Sim
    requires s.pending != []
  {
    Fired(s.(pending := s.pending[1..]), s.pending[0].item, s.pending[0].key, h)
  }

  lemma FiringKeeps(s: Sim, h: Handler)
    requires Ok(s) && s.pending != [] && s.pending[0].key <= s.clock.total
    ensures var s' := FiredFirst(s, h);
            && Ok(s') && Due(s') + 1 == Due(s) && s'.clock == s.clock && s'.status == s.status
            && s'.fired == s.fired + [Firing(s.pending[0].item, s.pending[0].key, s.clock.total)]
  {
    var e, n := s.pending[0], Due(s);
    var s1 := s.(pending := s.pending[1..], fired := s.fired + [Firing(e.item, e.key, s.clock.total)]);
    DueIs(s.pending, s.clock.total, n);
    PlaceIs(s1.pending, s.clock.total, 0, n - 1);
    HandledKeeps(s1, h(e.item, |s.fired|));
  }

  /** Putting an interrupt back changes its place among its equals at most. */
  lemma PuttingBack(q: Pending)
    requires q != [] && Sorted(q)
    ensures var r := SortedInsertion(q[1..], q[0].item, q[0].key);
            Sorted(r) && multiset(r) == multiset(q) && |r| == |q| && forall i :: 0 <= i < |q| ==> r[i].key == q[i].key
  {
    var rest, key := q[1..], q[0].key;
    InsertionKeepsOrder(rest, q[0].item, key);
    assert q == [q[0]] + rest;
    forall i | 0 <= i < |q|
      ensures SortedInsertion(rest, q[0].item, key)[i].key == q[i].key
    {
      BackInPlace(q, i);
    }
  }

  lemma BackInPlace(q: Pending, i: nat)
    requires i < |q| && Sorted(q)
    ensures SortedInsertion(q[1..], q[0].item, q[0].key)[i].key == q[i].key
  {
    var rest, key := q[1..], q[0].key;
    InsertionIndex(rest, q[0].item, key);
    var p := Place(rest, key, 0);
    if 0 < i <= p {
      assert rest[i - 1].key <= key;
    }
    if i < p {
      assert rest[i].key <= key && rest[i] == q[i + 1];
    }
  }

  // ---- Nothing is lost ----

  /** How often an interrupt is pending. */
  function Times(q: Pending, e: Element<Event>): nat {
    multiset(q)[e]
  }

  function Once(b: bool): nat {
    if b then 1 else 0
  }

  /** How often a handler's calls schedule an interrupt for a time. */
  function Requests(calls: seq<Call>, now: nat, e: Element<Event>): nat {
    if calls == [] then 0
    else
      var last := calls[|calls| - 1];
      Requests(calls[..|calls| - 1], now, e) + Once(last.Schedule? && e == Element(last.event, now + last.fromNow))
  }

  lemma InsertionAdds(q: Pending, event: Event, when: int, e: Element<Event>)
    requires Sorted(q)
    ensures Times(SortedInsertion(q, event, when), e) == Times(q, e) + Once(e == Element(event, when))
  {
    InsertionKeepsOrder(q, event, when);
  }

  lemma ScheduledPending(s: Sim, event: Event, fromNow: nat, when: int)
    requires when == s.clock.total + fromNow
    ensures Scheduled(s, event, fromNow).pending == SortedInsertion(s.pending, event, when)
  {}

  /** A handler adds to the pending interrupts exactly what it schedules. */
  lemma {:induction false} HandlersAddTheirRequests(s: Sim, calls: seq<Call>, e: Element<Event>)
    requires Ok(s)
    ensures Times(Handled(s, calls).pending, e) == Times(s.pending, e) + Requests(calls, s.clock.total, e)
  {
    if calls != [] {
      var rest, last := calls[..|calls| - 1], calls[|calls| - 1];
      HandlersAddTheirRequests(s, rest, e);
      HandledKeeps(s, rest);
      if last.Schedule? {
        var when := s.clock.total + last.fromNow;
        InsertionAdds(Handled(s, rest).pending, last.event, when, e);
        ScheduledPending(Handled(s, rest), last.event, last.fromNow, when);
      }
    }
  }

  /** It asks for a switch exactly if one of its calls says so. */
  lemma {:induction false} HandlersAskForSwitches(s: Sim, calls: seq<Call>)
    ensures Handled(s, calls).yieldOnReturn <==> s.yieldOnReturn || YieldOnReturn in calls
  {
    if calls != [] {
      var before, last := calls[..|calls| - 1], calls[|calls| - 1];
      HandlersAskForSwitches(s, before);
      assert calls == before + [last];
    }
  }

  lemma TakingFirst(q: Pending, e: Element<Event>)
    requires q != []
    ensures Times(q, e) == Times(q[1..], e) + Once(e == q[0])
  {
    assert q == [q[0]] + q[1..];
  }

  /** No interrupt is lost or invented: firing takes the first one off and adds what its handler schedules. */
  lemma FiringConserves(s: Sim, h: Handler, e: Element<Event>)
    requires Ok(s) && s.pending != [] && s.pending[0].key <= s.clock.total
    ensures var first := s.pending[0];
            Times(FiredFirst(s, h).pending, e) + Once(e == first)
            == Times(s.pending, e) + Requests(h(first.item, |s.fired|), s.clock.total, e)
  {
    var first := s.pending[0];
    var s1 := s.(pending := s.pending[1..], fired := s.fired + [Firing(first.item, first.key, s.clock.total)]);
    TakingFirst(s.pending, e);
    HandlersAddTheirRequests(s1, h(first.item, |s.fired|), e);
  }

  // ---- Draining ----

  /** What a call of CheckIfDue does, in terms of times: an interrupt is fired exactly if there is one that is
    due or may be waited for, other than a lone timer on an idle machine. */
  predicate Fires(s: Sim, advanceClock: bool) {
    && s.pending != [] && (advanceClock || s.pending[0].key <= s.clock.total)
    && !(s.status == IdleMode && |s.pending| == 1 && s.pending[0].item.kind == TimerInt)
  }

  /** What firing leaves. */
  ghost predicate FiredOne(s: Sim, s': Sim) {
    && s.pending != []
    && s'.clock == Advanced(s.clock, s.pending[0].key)
    && s'.fired == s.fired + [Firing(s.pending[0].item, s.pending[0].key, s'.clock.total)]
  }

  /** What not firing leaves: everything but the clock, up to the order among equals. */
  ghost predicate PutBack(s: Sim, s': Sim) {
    && s'.fired == s.fired && s'.yieldOnReturn == s.yieldOnReturn
    && multiset(s'.pending) == multiset(s.pending) && |s'.pending| == |s.pending|
    && (forall i :: 0 <= i < |s.pending| ==> s'.pending[i].key == s.pending[i].key)
  }

  lemma AdvancedOk(s: Sim, when: int)
    requires Ok(s)
    ensures Ok(s.(clock := Advanced(s.clock, when)))
  {}

  lemma CheckFires(s: Sim, advanceClock: bool, h: Handler)
    requires Ok(s) && Fires(s, advanceClock)
    ensures var (s', fired) := Check(s, advanceClock, h); fired && Ok(s') && s'.status == s.status && FiredOne(s, s')
    ensures !advanceClock ==>
              Check(s, advanceClock, h).0.clock == s.clock && Due(Check(s, advanceClock, h).0) + 1 == Due(s)
  {
    AdvancedOk(s, s.pending[0].key);
    FiringKeeps(s.(clock := Advanced(s.clock, s.pending[0].key)), h);
    assert !advanceClock ==> s.(clock := Advanced(s.clock, s.pending[0].key)) == s;
  }

  lemma PutBackOk(s: Sim, c: Clock)
    requires Ok(s) && s.pending != [] && Ok(s.(clock := c))
    ensures var s' := s.(clock := c, pending := SortedInsertion(s.pending[1..], s.pending[0].item, s.pending[0].key));
            Ok(s') && PutBack(s, s')
  {
    PuttingBack(s.pending);
  }

  lemma CheckPutsBack(s: Sim, advanceClock: bool, h: Handler)
    requires Ok(s) && !Fires(s, advanceClock)
    ensures var (s', fired) := Check(s, advanceClock, h); !fired && Ok(s') && s'.status == s.status && PutBack(s, s')
    ensures !advanceClock ==> Check(s, advanceClock, h).0.clock == s.clock
  {
    if s.pending != [] {
      var e := s.pending[0];
      AdvancedOk(s, e.key);
      PutBackOk(s, if e.key > s.clock.total && !advanceClock then s.clock else Advanced(s.clock, e.key));
    }
  }

  /** Where a refused interrupt goes: behind all those of the same time, `n` in number with itself. */
  lemma RefusedGoesBehindEquals(s: Sim, advanceClock: bool, h: Handler, n: nat)
    requires Ok(s) && !Fires(s, advanceClock) && 0 < n <= |s.pending|
    requires forall i :: 0 <= i < n ==> s.pending[i].key == s.pending[0].key
    requires n < |s.pending| ==> s.pending[n].key > s.pending[0].key
    ensures Check(s, advanceClock, h).0.pending == s.pending[1..n] + [s.pending[0]] + s.pending[n..]
  {
    var e, rest := s.pending[0], s.pending[1..];
    InsertionAt(rest, e.item, e.key, n - 1);
    assert rest[..n - 1] == s.pending[1..n] && rest[n - 1..] == s.pending[n..];
  }

  /** while (CheckIfDue(FALSE)). It ends because each turn uses up one due interrupt, and handlers add none. */
  function Drained(s: Sim, h: Handler): Sim
    requires Ok(s)
    decreases Due(s)
  {
    if Fires(s, false) then
      CheckFires(s, false, h);
      Drained(Check(s, false, h).0, h)
    else Check(s, false, h).0
  }

  ghost predicate AllFrom(q: Pending, time: int) {
    forall i :: 0 <= i < |q| ==> time <= q[i].key
  }

  lemma InsertionFrom(q: Pending, item: Event, when: int, time: int)
    requires AllFrom(q, time) && time <= when
    ensures AllFrom(SortedInsertion(q, item, when), time)
  {
    InsertionIndex(q, item, when);
  }

  lemma {:induction false} HandledFrom(s: Sim, calls: seq<Call>, time: int)
    requires AllFrom(s.pending, time) && time <= s.clock.total
    ensures AllFrom(Handled(s, calls).pending, time) && Handled(s, calls).clock == s.clock
  {
    if calls != [] {
      var before, last := Handled(s, calls[..|calls| - 1]), calls[|calls| - 1];
      HandledFrom(s, calls[..|calls| - 1], time);
      if last.Schedule? {
        var when := before.clock.total + last.fromNow;
        InsertionFrom(before.pending, last.event, when, time);
        ScheduledPending(before, last.event, last.fromNow, when);
      }
    }
  }

  /** After a due interrupt is fired, none that came before it is left or added. */
  lemma FiredFrom(s: Sim, h: Handler)
    requires Ok(s) && s.pending != [] && s.pending[0].key <= s.clock.total
    ensures AllFrom(FiredFirst(s, h).pending, s.pending[0].key)
  {
    var e := s.pending[0];
    var s1 := s.(pending := s.pending[1..], fired := s.fired + [Firing(e.item, e.key, s.clock.total)]);
    HandledFrom(s1, h(e.item, |s.fired|), e.key);
  }

  /** `late` was fired at one time, in non-decreasing order of the times it was due, none before `time`. */
  ghost predicate InTurn(late: seq<Firing>, time: int, now: int) {
    && (forall i :: 0 <= i < |late| ==> time <= late[i].due && late[i].at == now)
    && (forall i, j :: 0 <= i < j < |late| ==> late[i].due <= late[j].due)
  }

  lemma InTurnCons(f: Firing, late: seq<Firing>, time: int, now: int)
    requires time <= f.due && f.at == now && InTurn(late, f.due, now)
    ensures InTurn([f] + late, time, now)
  {}

  /** A drain stops with nothing due that it could fire, takes no time, and fires in time order. */
  lemma {:induction false} DrainedInTurn(s: Sim, h: Handler, time: int)
    requires Ok(s) && AllFrom(s.pending, time)
    ensures var s' := Drained(s, h);
            && Ok(s') && s'.clock == s.clock && s'.status == s.status && !Fires(s', false)
            && s.fired <= s'.fired && InTurn(s'.fired[|s.fired|..], time, s.clock.total)
    decreases Due(s)
  {
    if Fires(s, false) {
      var s1, e := Check(s, false, h).0, s.pending[0];
      CheckFires(s, false, h);
      FiredFrom(s, h);
      assert s.(clock := Advanced(s.clock, e.key)) == s;
      DrainedInTurn(s1, h, e.key);
      var f, late := s1.fired[|s.fired|], Drained(s1, h).fired[|s1.fired|..];
      InTurnCons(f, late, time, s.clock.total);
      assert Drained(s, h).fired[|s.fired|..] == [f] + late;
    } else {
      CheckPutsBack(s, false, h);
    }
  }

  // ---- Ticks ----

  function Tick(s: Sim): Sim {
    if s.status == SystemMode then
      s.(clock := s.clock.(total := s.clock.total + SYSTEM_TICK, system := s.clock.system + SYSTEM_TICK))
    else
      s.(clock := s.clock.(total := s.clock.total + USER_TICK, user := s.clock.user + USER_TICK))
  }

  lemma TickOk(s: Sim)
    requires Ok(s)
    ensures Ok(Tick(s))
  {}

  /** A tick is ten units of system time in the kernel and one of user time otherwise. */
  lemma TickTakes(s: Sim)
    ensures var c, c' := s.clock, Tick(s).clock;
            if s.status == SystemMode then c' == Clock(c.total + 10, c.idle, c.system + 10, c.user)
            else c' == Clock(c.total + 1, c.idle, c.system, c.user + 1)
    ensures Tick(s) == s.(clock := Tick(s).clock)
  {}

  /** Waiting is idle time, up to the moment waited for, and no time goes back. */
  lemma WaitingIsIdle(c: Clock, when: int)
    ensures var c' := Advanced(c, when);
            && c' == c.(total := c'.total, idle := c'.idle) && c'.total - c.total == c'.idle - c.idle >= 0
            && c'.total >= when && (c'.total > c.total ==> c'.total == when)
  {}

  /** OneTick up to the context switch that a handler may have asked for. */
  function Ticked(s: Sim, h: Handler): (Sim, bool)
    requires Ok(s)
  {
    TickOk(s);
    var d := Drained(Tick(s), h);
    (d.(yieldOnReturn := false), d.yieldOnReturn)
  }

  /** While a thread runs, a tick leaves nothing due behind; what it fires, it fires in time order, and the clock
    moves by the tick alone. */
  lemma TickDrains(s: Sim, h: Handler)
    requires Ok(s) && s.status != IdleMode
    ensures var s' := Ticked(s, h).0;
            && Ok(s') && s'.status == s.status && Due(s') == 0 && s'.clock == Tick(s).clock
            && s.fired <= s'.fired && InTurn(s'.fired[|s.fired|..], 0, s'.clock.total)
  {
    TickOk(s);
    DrainedInTurn(Tick(s), h, 0);
    var d := Drained(Tick(s), h);
    PlaceIs(d.pending, d.clock.total, 0, 0);
  }

  /** One of the handlers of what has been fired since there were `from` interrupts fired has asked for a switch. */
  ghost predicate AskedSince(fired: seq<Firing>, from: nat, h: Handler) {
    exists i :: from <= i < |fired| && YieldOnReturn in h(fired[i].event, i)
  }

  lemma AskedByFirst(fired: seq<Firing>, from: nat, h: Handler)
    requires from < |fired|
    ensures AskedSince(fired, from, h)
            <==> YieldOnReturn in h(fired[from].event, from) || AskedSince(fired, from + 1, h)
  {}

  lemma FiringAsks(s: Sim, h: Handler)
    requires Ok(s) && s.pending != [] && s.pending[0].key <= s.clock.total
    ensures FiredFirst(s, h).yieldOnReturn <==> s.yieldOnReturn || YieldOnReturn in h(s.pending[0].item, |s.fired|)
  {
    var e := s.pending[0];
    HandlersAskForSwitches(s.(pending := s.pending[1..], fired := s.fired + [Firing(e.item, e.key, s.clock.total)]),
                           h(e.item, |s.fired|));
  }

  lemma {:induction false} DrainAsks(s: Sim, h: Handler)
    requires Ok(s)
    ensures Drained(s, h).yieldOnReturn <==> s.yieldOnReturn || AskedSince(Drained(s, h).fired, |s.fired|, h)
    ensures s.fired <= Drained(s, h).fired
    decreases Due(s)
  {
    if Fires(s, false) {
      var s1 := Check(s, false, h).0;
      CheckFires(s, false, h);
      assert s.(clock := Advanced(s.clock, s.pending[0].key)) == s;
      FiringAsks(s, h);
      DrainAsks(s1, h);
      var fired := Drained(s, h).fired;
      assert fired[|s.fired|] == s1.fired[|s.fired|];
      AskedByFirst(fired, |s.fired|, h);
    } else {
      CheckPutsBack(s, false, h);
    }
  }

  /** The interrupted thread has to yield exactly if a handler has asked for it, before the tick or at one of the
    interrupts that the tick brings; the request is then forgotten. */
  lemma TickYields(s: Sim, h: Handler)
    requires Ok(s)
    ensures var (s', mustYield) := Ticked(s, h);
            && (mustYield <==> s.yieldOnReturn || AskedSince(s'.fired, |s.fired|, h))
            && !s'.yieldOnReturn && s.fired <= s'.fired
  {
    TickOk(s);
    DrainAsks(Tick(s), h);
  }

  /** Idle: wait for the next interrupt and fire what is due; false when the machine is to halt instead. */
  function Idled(s: Sim, h: Handler): (Sim, bool)
    requires Ok(s)
  {
    var s1 := s.(status := IdleMode);
    if Fires(s1, true) then
      CheckFires(s1, true, h);
      (Drained(Check(s1, true, h).0, h).(yieldOnReturn := false, status := SystemMode), true)
    else (Check(s1, true, h).0, false)
  }

  predicate LoneTimer(q: Pending) {
    |q| == 1 && q[0].item.kind == TimerInt
  }

  predicate Schedules(calls: seq<Call>) {
    exists i :: 0 <= i < |calls| && calls[i].Schedule?
  }

  /** The timer's interrupt comes last, is due by `now`, and no handler before it schedules anything: it will be
    alone, and due, when everything else has been fired. */
  predicate TimerComesLast(q: Pending, now: int, h: Handler, fired: nat) {
    && q != [] && q[|q| - 1].key <= now && q[|q| - 1].item.kind == TimerInt
    && forall i :: 0 <= i < |q| - 1 ==> !Schedules(h(q[i].item, fired + i))
  }

  lemma {:induction false} QuietHandler(s: Sim, calls: seq<Call>)
    requires !Schedules(calls)
    ensures Handled(s, calls).pending == s.pending
  {
    if calls != [] {
      var rest := calls[..|calls| - 1];
      assert forall i :: 0 <= i < |rest| ==> rest[i] == calls[i];
      assert !calls[|calls| - 1].Schedule?;
      QuietHandler(s, rest);
    }
  }

  /** Something that lies ahead is pending, so the last interrupt lies ahead. */
  predicate LastIsAhead(q: Pending, now: int) {
    q != [] && now < q[|q| - 1].key
  }

  lemma InsertionStaysAhead(q: Pending, item: Event, when: int, now: int)
    requires Sorted(q) && now < when
    ensures LastIsAhead(SortedInsertion(q, item, when), now)
  {
    InsertionIndex(q, item, when);
    InsertionKeepsOrder(q, item, when);
    var p, r := Place(q, when, 0), SortedInsertion(q, item, when);
    assert r[p].key == when && r[p].key <= r[|r| - 1].key;
  }

  lemma {:induction false} SchedulingLiesAhead(s: Sim, calls: seq<Call>)
    requires Ok(s) && (Schedules(calls) || LastIsAhead(s.pending, s.clock.total))
    ensures LastIsAhead(Handled(s, calls).pending, s.clock.total)
  {
    if calls != [] {
      var rest, last := calls[..|calls| - 1], calls[|calls| - 1];
      HandledKeeps(s, rest);
      if last.Schedule? {
        var before := Handled(s, rest);
        InsertionStaysAhead(before.pending, last.event, before.clock.total + last.fromNow, s.clock.total);
      } else {
        if Schedules(calls) {
          var i :| 0 <= i < |calls| && calls[i].Schedule?;
          assert rest[i] == calls[i];
        }
        SchedulingLiesAhead(s, rest);
      }
    }
  }

  /** Firing the first of several interrupts, or a single one that is not the timer's, neither brings this about nor
    undoes it. */
  lemma FiringKeepsTimerLast(s: Sim, h: Handler)
    requires Ok(s) && s.pending != [] && s.pending[0].key <= s.clock.total && !LoneTimer(s.pending)
    ensures var s' := FiredFirst(s, h);
            TimerComesLast(s'.pending, s.clock.total, h, |s'.fired|)
            <==> TimerComesLast(s.pending, s.clock.total, h, |s.fired|)
  {
    FiringKeeps(s, h);
    if Schedules(h(s.pending[0].item, |s.fired|)) {
      BusyFiring(s, h);
    } else {
      QuietFiring(s, h);
      ShiftTimer(s.pending, s.clock.total, h, |s.fired|);
    }
  }

  lemma BusyFiring(s: Sim, h: Handler)
    requires Ok(s) && s.pending != [] && s.pending[0].key <= s.clock.total
    requires Schedules(h(s.pending[0].item, |s.fired|))
    ensures LastIsAhead(FiredFirst(s, h).pending, s.clock.total)
  {
    var e := s.pending[0];
    SchedulingLiesAhead(s.(pending := s.pending[1..], fired := s.fired + [Firing(e.item, e.key, s.clock.total)]),
                        h(e.item, |s.fired|));
  }

  lemma QuietFiring(s: Sim, h: Handler)
    requires s.pending != [] && !Schedules(h(s.pending[0].item, |s.fired|))
    ensures FiredFirst(s, h).pending == s.pending[1..]
  {
    var e := s.pending[0];
    QuietHandler(s.(pending := s.pending[1..], fired := s.fired + [Firing(e.item, e.key, s.clock.total)]),
                 h(e.item, |s.fired|));
  }

  lemma ShiftTimer(q: Pending, now: int, h: Handler, fired: nat)
    requires q != [] && !LoneTimer(q) && !Schedules(h(q[0].item, fired))
    ensures TimerComesLast(q[1..], now, h, fired + 1) <==> TimerComesLast(q, now, h, fired)
  {
    var rest := q[1..];
    assert forall i :: 0 <= i < |rest| ==> rest[i] == q[i + 1];
    if TimerComesLast(rest, now, h, fired + 1) {
      forall i | 0 <= i < |q| - 1
        ensures !Schedules(h(q[i].item, fired + i))
      {
        if i > 0 {
          assert !Schedules(h(rest[i - 1].item, fired + 1 + (i - 1)));
        }
      }
    }
    if TimerComesLast(q, now, h, fired) {
      forall i | 0 <= i < |rest| - 1
        ensures !Schedules(h(rest[i].item, fired + 1 + i))
      {
        assert !Schedules(h(q[i + 1].item, fired + (i + 1)));
      }
    }
  }

  predicate TimerLeftDue(s: Sim) {
    LoneTimer(s.pending) && s.pending[0].key <= s.clock.total
  }

  lemma OnlyOne(q: Pending, e: Element<Event>)
    requires |q| == 1 && multiset(q) == multiset([e])
    ensures q == [e]
  {
    assert q[0] in multiset(q);
  }

  /** On an idle machine a drain leaves the timer's interrupt due exactly if it came last, from the start. */
  lemma {:induction false} DrainLeavesTimer(s: Sim, h: Handler)
    requires Ok(s) && s.status == IdleMode
    ensures TimerLeftDue(Drained(s, h)) <==> TimerComesLast(s.pending, s.clock.total, h, |s.fired|)
    decreases Due(s)
  {
    if Fires(s, false) {
      CheckFires(s, false, h);
      assert s.(clock := Advanced(s.clock, s.pending[0].key)) == s;
      FiringKeepsTimerLast(s, h);
      DrainLeavesTimer(Check(s, false, h).0, h);
    } else {
      CheckPutsBack(s, false, h);
      if LoneTimer(s.pending) {
        assert s.pending == [s.pending[0]];
        OnlyOne(Drained(s, h).pending, s.pending[0]);
      }
    }
  }

  /** The time at which an idle machine goes on. */
  function NextTime(s: Sim): int
    requires s.pending != []
  {
    if s.pending[0].key > s.clock.total then s.pending[0].key else s.clock.total
  }

  /** The machine halts exactly when nothing or only the timer is pending. Otherwise Idle fires at least one
    interrupt, and leaves one due behind exactly if, before the call, the last of the pending interrupts is the
    timer's, is due when the first is, and no handler before it schedules anything. */
  lemma IdleWaits(s: Sim, h: Handler)
    requires Ok(s)
    ensures var (s', awake) := Idled(s, h);
            && Ok(s') && (awake <==> s.pending != [] && !LoneTimer(s.pending))
            && (awake ==> |s.fired| < |s'.fired| && s'.status == SystemMode && !s'.yieldOnReturn
                          && s'.clock.total == NextTime(s) && s'.clock.user == s.clock.user
                          && s'.clock.system == s.clock.system
                          && (Due(s') > 0 <==> TimerComesLast(s.pending, NextTime(s), h, |s.fired|)))
  {
    var s1 := s.(status := IdleMode);
    if Fires(s1, true) {
      CheckFires(s1, true, h);
      IdleFires(s1, h);
      IdleDrains(Check(s1, true, h).0, h);
    } else {
      CheckPutsBack(s1, true, h);
    }
  }

  /** The first interrupt, at its time. */
  lemma IdleFires(s: Sim, h: Handler)
    requires Ok(s) && Fires(s, true) && s.status == IdleMode
    ensures var s' := Check(s, true, h).0;
            TimerComesLast(s'.pending, s'.clock.total, h, |s'.fired|)
            <==> TimerComesLast(s.pending, NextTime(s), h, |s.fired|)
  {
    var at := s.(clock := Advanced(s.clock, s.pending[0].key));
    AdvancedOk(s, s.pending[0].key);
    FiringKeeps(at, h);
    FiringKeepsTimerLast(at, h);
  }

  /** The rest: nothing is due afterwards but the timer's interrupt, if that is left. */
  lemma IdleDrains(s: Sim, h: Handler)
    requires Ok(s) && s.status == IdleMode
    ensures var d := Drained(s, h);
            && Ok(d) && d.status == IdleMode && s.fired <= d.fired && d.clock == s.clock
            && (Due(d) > 0 <==> TimerComesLast(s.pending, s.clock.total, h, |s.fired|))
  {
    EarliestOf(s.pending);
    DrainedInTurn(s, h, 0);
    DrainLeavesTimer(s, h);
    var d := Drained(s, h);
    if d.pending != [] && d.pending[0].key > d.clock.total {
      PlaceIs(d.pending, d.clock.total, 0, 0);
    }
  }

  lemma EarliestOf(q: Pending)
    requires InOrder(q)
    ensures AllFrom(q, 0)
  {}

  /** The mode a handler runs in does not matter to it. */
  lemma {:induction false} HandledInAnyMode(s: Sim, calls: seq<Call>, mode: Mode)
    ensures Handled(s.(status := mode), calls) == Handled(s, calls).(status := mode)
    ensures Handled(s, calls).status == s.status
  {
    if calls != [] {
      HandledInAnyMode(s, calls[..|calls| - 1], mode);
    }
  }

  lemma IdleSteps(s: Sim, h: Handler)
    requires Ok(s)
    ensures var (s', any) := Check(s.(status := IdleMode), true, h);
            && Ok(s')
            && Idled(s, h) ==
                 if any then (Drained(s', h).(yieldOnReturn := false, status := SystemMode), true) else (s', false)
  {
    if Fires(s.(status := IdleMode), true) {
      CheckFires(s.(status := IdleMode), true, h);
    } else {
      CheckPutsBack(s.(status := IdleMode), true, h);
    }
  }

  lemma DrainStep(s: Sim, h: Handler)
    requires Ok(s)
    ensures var (s', any) := Check(s, false, h);
            && Ok(s') && Drained(s, h) == (if any then Drained(s', h) else s')
            && (any ==> Due(s') < Due(s))
  {
    if Fires(s, false) {
      CheckFires(s, false, h);
    } else {
      CheckPutsBack(s, false, h);
    }
  }

  predicate IdleLeavesSomethingDue(s: Sim, h: Handler)
    requires Ok(s)
  {
    Idled(s, h).1 && Due(Idled(s, h).0) > 0
  }

  lemma IdleLeavesTimer(s: Sim, h: Handler, next: int)
    requires Ok(s) && s.pending != [] && !LoneTimer(s.pending) && next == NextTime(s)
    requires TimerComesLast(s.pending, next, h, |s.fired|)
    ensures IdleLeavesSomethingDue(s, h)
  {
    IdleWaits(s, h);
  }

  lemma OneBeforeTheTimer(q: Pending, now: int, h: Handler)
    requires |q| == 2 && q[1].key <= now && q[1].item.kind == TimerInt && !Schedules(h(q[0].item, 0))
    ensures TimerComesLast(q, now, h, 0)
  {}

  /** For example: the disk's and the timer's interrupt both at 100 on a clock at 0, and a disk handler that does
    nothing. */
  lemma IdleCanLeaveTheTimerDue(s: Sim, h: Handler, disk: Element<Event>, timer: Element<Event>)
    requires disk.key == 100 && timer.key == 100 && disk.item.kind == DiskInt && timer.item.kind == TimerInt
    requires s.pending == [disk, timer] && s.clock.total == 0 && Adds(s.clock) && s.fired == [] && h(disk.item, 0) == []
    ensures Ok(s) && IdleLeavesSomethingDue(s, h)
  {
    EventsOfTwo(s);
    OneBeforeTheTimer(s.pending, disk.key, h);
    IdleLeavesTimer(s, h, disk.key);
  }

  lemma EventsOfTwo(s: Sim)
    requires |s.pending| == 2 && 0 <= s.pending[0].key <= s.pending[1].key && Adds(s.clock) && s.fired == []
    ensures Ok(s)
  {}

  // ---- Whole runs ----

  /** What the rest of the kernel does with the simulation; `RunAs` is the change between kernel and user code. */
  datatype Move = Ask(event: Event, fromNow: Delay) | TurnOn | Wait | RunAs(user: bool)

  /** Nothing happens any more once Idle has found nothing to wait for: the machine halts. */
  function Next(s: Sim, move: Move, h: Handler): Sim
    requires Ok(s)
  {
    if s.status == IdleMode then s
    else
      match move
      case Ask(event, fromNow) => Scheduled(s, event, fromNow)
      case TurnOn => Ticked(s, h).0
      case Wait => Idled(s, h).0
      case RunAs(user) => s.(status := if user then UserMode else SystemMode)
  }

  /** What was fired so far came in the order of the times it was due, and nothing pending is due before that. */
  ghost predicate InDueOrder(s: Sim) {
    && (forall i, j :: 0 <= i < j < |s.fired| ==> s.fired[i].due <= s.fired[j].due && s.fired[i].at <= s.fired[j].at)
    && (s.fired != [] ==> AllFrom(s.pending, s.fired[|s.fired| - 1].due))
  }

  lemma FiringInOrder(s: Sim, h: Handler)
    requires Ok(s) && s.pending != [] && s.pending[0].key <= s.clock.total && InDueOrder(s)
    ensures InDueOrder(FiredFirst(s, h))
  {
    FiringKeeps(s, h);
    FiredFrom(s, h);
  }

  lemma PutBackInOrder(s: Sim, s': Sim)
    requires InDueOrder(s) && PutBack(s, s')
    ensures InDueOrder(s')
  {
    if s.fired != [] {
      var time := s.fired[|s.fired| - 1].due;
      forall i | 0 <= i < |s'.pending|
        ensures time <= s'.pending[i].key
      {
        assert time <= s.pending[i].key;
      }
    }
  }

  lemma CheckInOrder(s: Sim, advanceClock: bool, h: Handler)
    requires Ok(s) && InDueOrder(s)
    ensures InDueOrder(Check(s, advanceClock, h).0)
  {
    if Fires(s, advanceClock) {
      AdvancedOk(s, s.pending[0].key);
      FiringInOrder(s.(clock := Advanced(s.clock, s.pending[0].key)), h);
    } else {
      CheckPutsBack(s, advanceClock, h);
      PutBackInOrder(s, Check(s, advanceClock, h).0);
    }
  }

  lemma {:induction false} DrainInOrder(s: Sim, h: Handler)
    requires Ok(s) && InDueOrder(s)
    ensures InDueOrder(Drained(s, h))
    decreases Due(s)
  {
    CheckInOrder(s, false, h);
    if Fires(s, false) {
      CheckFires(s, false, h);
      DrainInOrder(Check(s, false, h).0, h);
    }
  }

  lemma AskInOrder(s: Sim, event: Event, fromNow: Delay)
    requires Ok(s) && InDueOrder(s)
    ensures InDueOrder(Scheduled(s, event, fromNow))
  {
    var when := s.clock.total + fromNow;
    ScheduledPending(s, event, fromNow, when);
    if s.fired != [] {
      InsertionFrom(s.pending, event, when, s.fired[|s.fired| - 1].due);
    }
  }

  lemma NextOk(s: Sim, move: Move, h: Handler)
    requires Ok(s)
    ensures Ok(Next(s, move, h))
  {
    if s.status != IdleMode {
      match move
      case Ask(event, fromNow) => ScheduledKeeps(s, event, fromNow);
      case TurnOn => TickDrains(s, h);
      case Wait => IdleWaits(s, h);
      case RunAs(_) =>
    }
  }

  lemma NextInOrder(s: Sim, move: Move, h: Handler)
    requires Ok(s) && InDueOrder(s)
    ensures InDueOrder(Next(s, move, h))
  {
    if s.status != IdleMode {
      match move
      case Ask(event, fromNow) => AskInOrder(s, event, fromNow);
      case TurnOn =>
        TickOk(s);
        DrainInOrder(Tick(s), h);
      case Wait => IdleInOrder(s, h);
      case RunAs(_) =>
    }
  }

  lemma IdleInOrder(s: Sim, h: Handler)
    requires Ok(s) && InDueOrder(s)
    ensures InDueOrder(Idled(s, h).0)
  {
    var s1 := s.(status := IdleMode);
    CheckInOrder(s1, true, h);
    if Fires(s1, true) {
      CheckFires(s1, true, h);
      DrainInOrder(Check(s1, true, h).0, h);
    }
  }

  /** The simulation as it is set up. */
  predicate Initial(s: Sim) {
    && s.pending == [] && s.fired == [] && s.status == SystemMode && !s.yieldOnReturn
    && s.clock.total == 0 && Adds(s.clock)
  }

  lemma InitialOk(s: Sim)
    requires Initial(s)
    ensures Ok(s)
  {}

  /** The state after a run. */
  function After(start: Sim, moves: seq<Move>, h: Handler): (s: Sim)
    requires Initial(start)
    ensures Ok(s)
  {
    if moves == [] then
      InitialOk(start);
      start
    else
      var before, last := After(start, moves[..|moves| - 1], h), moves[|moves| - 1];
      NextOk(before, last, h);
      Next(before, last, h)
  }

  /** In every run the clock adds up, nothing is fired early, and interrupts are fired in the order of the times they
    are due, whoever schedules them and whatever Idle leaves behind. */
  lemma {:induction false} RunsFireInDueOrder(start: Sim, moves: seq<Move>, h: Handler)
    requires Initial(start)
    ensures Ok(After(start, moves, h)) && InDueOrder(After(start, moves, h))
  {
    if moves != [] {
      var rest, last := moves[..|moves| - 1], moves[|moves| - 1];
      RunsFireInDueOrder(start, rest, h);
      NextInOrder(After(start, rest, h), last, h);
    }
  }

  lemma AskedInTurn(s: Sim, first: Event, second: Event, fromNow: Delay)
    requires s.pending == []
    ensures var when := s.clock.total + fromNow;
            Scheduled(Scheduled(s, first, fromNow), second, fromNow).pending
            == [Element(first, when), Element(second, when)]
  {
    var when := s.clock.total + fromNow;
    InsertionAt(s.pending, first, when, 0);
    InsertionAt([Element(first, when)], second, when, 1);
  }

  lemma AfterTwo(start: Sim, one: Move, two: Move, h: Handler)
    requires Initial(start)
    ensures Ok(start) && Ok(Next(start, one, h)) && After(start, [one, two], h) == Next(Next(start, one, h), two, h)
  {
    InitialOk(start);
    NextOk(start, one, h);
    assert [one, two][..1] == [one] && [one][..0] == [];
    assert After(start, [one], h) == Next(start, one, h);
  }

  /** A run that does: a disk's and a timer's interrupt asked for at the start, for the same time. */
  lemma IdleLeavesTheTimerDueInARun(start: Sim, h: Handler, disk: Event, timer: Event, fromNow: Delay)
    requires Initial(start) && disk.kind == DiskInt && timer.kind == TimerInt && h(disk, 0) == []
    ensures IdleLeavesSomethingDue(After(start, [Ask(disk, fromNow), Ask(timer, fromNow)], h), h)
  {
    AfterTwo(start, Ask(disk, fromNow), Ask(timer, fromNow), h);
    AskedInTurn(start, disk, timer, fromNow);
    var s := After(start, [Ask(disk, fromNow), Ask(timer, fromNow)], h);
    OneBeforeTheTimer(s.pending, fromNow, h);
    IdleLeavesTimer(s, h, fromNow);
  }

  // ---- The machine's interrupt object ----

  class Interrupt {
    var level: bool
    const pending: List<Event>
    var inHandler: bool
    var yieldOnReturn: bool
    var status: Mode
    var clock: Clock
    var count: nat
    const handler: Handler
    ghost var fired: seq<Firing>

    ghost predicate Valid()
      reads this, pending, pending.spine
    {
      count == |fired| && pending.Valid()
    }

    ghost function State(): Sim
      reads this, pending
    {
      Sim(pending.Contents(), clock, status, yieldOnReturn, fired)
    }

    constructor (handler: Handler)
      ensures Valid() && !level && !inHandler && this.handler == handler && fresh(pending)
      ensures Initial(State())
    {
      level, inHandler, yieldOnReturn, status := false, false, false, SystemMode;
      clock, count, fired := Clock(0, 0, 0, 0), 0, [];
      pending := new List();
      this.handler := handler;
    }

    method Schedule(event: Event, fromNow: nat)
      requires Valid() && fromNow > 0
      modifies pending, pending.spine
      ensures Valid()
      ensures fresh(set n | n in pending.spine && n !in old(pending.spine))
      ensures State() == Scheduled(old(State()), event, fromNow)
    {
      pending.SortedInsert(event, clock.total + fromNow);
    }

    /** Running a handler: whatever it asks for, in its order. */
    method RunHandler(calls: seq<Call>)
      requires Valid()
      modifies `yieldOnReturn, pending, pending.spine
      ensures Valid()
      ensures fresh(set n | n in pending.spine && n !in old(pending.spine))
      ensures State() == Handled(old(State()), calls)
    {
      for i := 0 to |calls|
        invariant Valid()
        invariant fresh(set n | n in pending.spine && n !in old(pending.spine))
        invariant State() == Handled(old(State()), calls[..i])
      {
        assert calls[..i + 1][..i] == calls[..i];
        match calls[i]
        case Schedule(event, fromNow) => Schedule(event, fromNow);
        case YieldOnReturn => yieldOnReturn := true;
      }
      assert calls[..|calls|] == calls;
    }

    method PutBack(event: Event, when: int)
      requires Valid()
      modifies pending, pending.spine
      ensures Valid()
      ensures fresh(set n | n in pending.spine && n !in old(pending.spine))
      ensures State() == old(State()).(pending := SortedInsertion(old(State()).pending, event, when))
    {
      pending.SortedInsert(event, when);
    }

    /** The first pending interrupt comes off the list. */
    method TakeFirst() returns (found: bool, event: Event, when: int)
      requires Valid()
      modifies pending
      ensures Valid()
      ensures fresh(set n | n in pending.spine && n !in old(pending.spine))
      ensures found == (old(State()).pending != [])
      ensures !found ==> State() == old(State())
      ensures found ==> && State() == old(State()).(pending := old(State()).pending[1..])
                        && Element(event, when) == old(State()).pending[0]
    {
      var first;
      found, first := pending.SortedRemove();
      if found {
        event, when := first.front.item, first.front.key;
      } else {
        event, when := Event(TimerInt, 0), 0;
      }
    }

    method WaitUntil(when: int)
      requires when > clock.total
      modifies `clock
      ensures State() == old(State()).(clock := Advanced(old(State()).clock, when))
    {
      clock := clock.(idle := clock.idle + (when - clock.total), total := when);
    }

    method CheckIfDue(advanceClock: bool) returns (any: bool)
      requires Valid() && !level && !inHandler
      modifies `yieldOnReturn, `inHandler, `status, `clock, `count, `fired, pending, pending.spine
      ensures Valid() && !inHandler
      ensures fresh(set n | n in pending.spine && n !in old(pending.spine))
      ensures (State(), any) == Check(old(State()), advanceClock, handler)
    {
      var found, toOccur, when := TakeFirst();
      if !found {
        return false;
      }
      if advanceClock && when > clock.total {
        WaitUntil(when);
      } else if when > clock.total {
        PutBack(toOccur, when);
        return false;
      }
      any := FireUnlessDone(toOccur, when);
    }

    /** An idle machine with nothing but the timer left puts the timer's interrupt back. */
    method FireUnlessDone(toOccur: Event, when: int) returns (any: bool)
      requires Valid() && !inHandler
      modifies `yieldOnReturn, `inHandler, `status, `count, `fired, pending, pending.spine
      ensures Valid() && !inHandler
      ensures fresh(set n | n in pending.spine && n !in old(pending.spine))
      ensures (State(), any) == FiredUnlessDone(old(State()), toOccur, when, handler)
    {
      if status == IdleMode && toOccur.kind == TimerInt && pending.IsEmpty() {
        PutBack(toOccur, when);
        return false;
      }
      Fire(toOccur, when);
      return true;
    }

    method Fire(toOccur: Event, when: int)
      requires Valid()
      modifies `yieldOnReturn, `inHandler, `status, `count, `fired, pending, pending.spine
      ensures Valid() && !inHandler
      ensures fresh(set n | n in pending.spine && n !in old(pending.spine))
      ensures State() == Fired(old(State()), toOccur, when, handler)
    {
      var calls := handler(toOccur, count);
      Count(toOccur, when);
      RunInKernel(calls);
    }

    method Count(toOccur: Event, when: int)
      requires Valid()
      modifies `count, `fired
      ensures Valid()
      ensures State() == old(State()).(fired := old(State()).fired + [Firing(toOccur, when, old(State()).clock.total)])
    {
      fired := fired + [Firing(toOccur, when, clock.total)];
      count := count + 1;
    }

    /** The handler runs in the kernel; afterwards the machine is in the mode it was in. */
    method RunInKernel(calls: seq<Call>)
      requires Valid()
      modifies `yieldOnReturn, `inHandler, `status, pending, pending.spine
      ensures Valid() && !inHandler
      ensures fresh(set n | n in pending.spine && n !in old(pending.spine))
      ensures State() == Handled(old(State()), calls)
    {
      var interrupted := status;
      HandledInAnyMode(State(), calls, SystemMode);
      inHandler := true;
      status := SystemMode;
      RunHandler(calls);
      status := interrupted;
      inHandler := false;
    }

    /** while (CheckIfDue(FALSE)) */
    method Drain()
      requires Valid() && Ok(State()) && !level && !inHandler
      modifies `yieldOnReturn, `inHandler, `status, `clock, `count, `fired, pending, pending.spine
      ensures Valid() && !inHandler
      ensures fresh(set n | n in pending.spine && n !in old(pending.spine))
      ensures State() == Drained(old(State()), handler)
    {
      ghost var s := State();
      var any := true;
      while any
        invariant Valid() && !inHandler
        invariant fresh(set n | n in pending.spine && n !in old(pending.spine))
        invariant any ==> Ok(State()) && Drained(s, handler) == Drained(State(), handler)
        invariant !any ==> State() == Drained(s, handler)
        decreases any, Due(State())
      {
        DrainStep(State(), handler);
        any := CheckIfDue(false);
      }
    }

    method AdvanceClock()
      modifies `clock
      ensures State() == Tick(old(State()))
    {
      if status == SystemMode {
        clock := clock.(total := clock.total + SYSTEM_TICK, system := clock.system + SYSTEM_TICK);
      } else {
        clock := clock.(total := clock.total + USER_TICK, user := clock.user + USER_TICK);
      }
    }

    /** Returns whether the interrupted thread has to yield the processor now. */
    method OneTick() returns (mustYield: bool)
      requires Valid() && Ok(State()) && level && !inHandler
      modifies this, pending, pending.spine
      ensures Valid() && level && !inHandler
      ensures fresh(set n | n in pending.spine && n !in old(pending.spine))
      ensures (State(), mustYield) == Ticked(old(State()), handler)
    {
      TickOk(State());
      AdvanceClock();
      level := false;
      Drain();
      level := true;
      mustYield := yieldOnReturn;
      yieldOnReturn := false;
    }

    /** Turning interrupts on advances the clock; handlers may not turn them on. */
    method SetLevel(now: bool) returns (before: bool, mustYield: bool)
      requires Valid() && Ok(State()) && (now ==> !inHandler)
      modifies this, pending, pending.spine
      ensures Valid() && before == old(level) && level == now
      ensures fresh(set n | n in pending.spine && n !in old(pending.spine))
      ensures (State(), mustYield) == if now && !before then Ticked(old(State()), handler) else (old(State()), false)
    {
      before, mustYield := level, false;
      level := now;
      if now && !before {
        mustYield := OneTick();
      }
    }

    method GoIdle()
      modifies `status
      ensures State() == old(State()).(status := IdleMode)
    {
      status := IdleMode;
    }

    method WakeUp()
      modifies `yieldOnReturn, `status
      ensures State() == old(State()).(yieldOnReturn := false, status := SystemMode)
    {
      yieldOnReturn := false;
      status := SystemMode;
    }

    /** Called when no thread is ready; false when nothing is left to wait for. */
    method Idle() returns (awake: bool)
      requires Valid() && Ok(State()) && !level && !inHandler
      modifies this, pending, pending.spine
      ensures Valid() && !inHandler
      ensures fresh(set n | n in pending.spine && n !in old(pending.spine))
      ensures (State(), awake) == Idled(old(State()), handler)
    {
      IdleSteps(State(), handler);
      GoIdle();
      awake := CheckIfDue(true);
      if awake {
        Drain();
        WakeUp();
      }
    }
  }
}
