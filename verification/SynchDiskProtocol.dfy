/** The synchronous disk under any number of callers: one lock, one completion semaphore, one raw disk that
  accepts a request only while it is idle and raises an interrupt when it is done.

  Each call is a caller of its own; a thread that calls again is another caller. The raw disk moves the data when the
  request is made; the caller is told later. A lock can be taken only when
  it is free and P passes only when the semaphore is positive; between any two statements any other thread may
  run, or the disk's interrupt come. */
module SynchDiskProtocol {
  import opened Options
  import opened Sectors
  import opened WaitLists
  import opened Counting

  datatype Request = Read(sector: nat) | Write(sector: nat, data: Sector)

  /** The next thing a caller does. */
  datatype Pc = AtLock | Requesting | Waiting | Releasing | Returned

  /** `data` is the caller's buffer. */
  datatype Call = Call(request: Request, pc: Pc, data: Sector)

  /** `pending` is the interrupts under way with the call each belongs to, `served` the calls whose interrupt has
    come, `failed` that the raw disk was asked while active, and `log` the calls in the order of their requests. */
  datatype State = State(calls: map<Tid, Call>, lock: Option<Tid>, semaphore: int, active: bool, pending: seq<Tid>,
                         store: Store, served: set<Tid>, failed: bool, log: seq<Entry>)

  datatype Entry = Entry(t: Tid, request: Request)

  datatype Action = Begin(t: Tid, request: Request, buffer: Sector) | Step(t: Tid) | Interrupt(i: nat)

  // ---- The code ----

  predicate Ready(k: State, c: Call) {
    match c.pc
    case AtLock => k.lock == None
    case Waiting => k.semaphore > 0
    case Returned => false
    case _ => true
  }

  /** ReadSector and WriteSector are asked for sectors on the disk, as the raw disk asserts. */
  predicate Enabled(k: State, a: Action) {
    match a
    case Begin(t, request, _) => t !in k.calls && request.sector < NUM_SECTORS
    case Step(t) => t in k.calls && k.calls[t].request.sector < NUM_SECTORS && Ready(k, k.calls[t])
    case Interrupt(i) => i < |k.pending|
  }

  function At(k: State, t: Tid, pc: Pc): State
    requires t in k.calls
  {
    k.(calls := k.calls[t := k.calls[t].(pc := pc)])
  }

  /** Disk::ReadRequest and Disk::WriteRequest. */
  function Requested(k: State, t: Tid): State
    requires t in k.calls && k.calls[t].request.sector < NUM_SECTORS
  {
    var c := k.calls[t];
    if k.active then k.(failed := true)
    else
      var k1 := match c.request
        case Read(sector) => k.(calls := k.calls[t := c.(pc := Waiting, data := k.store[sector])])
        case Write(sector, data) => At(k, t, Waiting).(store := k.store[sector := data]);
      k1.(active := true, pending := k.pending + [t], log := k.log + [Entry(t, c.request)])
  }

  function Next(k: State, a: Action): State
    requires Enabled(k, a)
  {
    match a
    case Begin(t, request, buffer) => k.(calls := k.calls[t := Call(request, AtLock, buffer)])
    case Step(t) =>
      (match k.calls[t].pc
       case AtLock => At(k, t, Requesting).(lock := Some(t))
       case Requesting => Requested(k, t)
       case Waiting => At(k, t, Releasing).(semaphore := k.semaphore - 1)
       case Releasing => At(k, t, Returned).(lock := None)
       case Returned => k)
    case Interrupt(i) =>
      k.(active := false, semaphore := k.semaphore + 1, pending := k.pending[..i] + k.pending[i + 1..],
         served := k.served + {k.pending[i]})
  }

  // ---- The invariant ----

  predicate InCall(pc: Pc) {
    pc in {Requesting, Waiting, Releasing}
  }

  predicate IsWaiting(k: State, t: Tid) {
    t in k.calls && k.calls[t].pc == Waiting
  }

  ghost predicate LockOk(k: State) {
    forall t :: t in k.calls && InCall(k.calls[t].pc) <==> k.lock == Some(t)
  }

  /** The disk is quiet, unless the caller with the lock waits for it: then its interrupt is either still to come
    or has left a unit in the semaphore. */
  ghost predicate DiskOk(k: State) {
    if k.lock.Some? && IsWaiting(k, k.lock.value) then
      if k.active then k.semaphore == 0 && k.pending == [k.lock.value]
      else k.semaphore == 1 && k.pending == [] && k.lock.value in k.served
    else !k.active && k.semaphore == 0 && k.pending == []
  }

  ghost predicate ServedOk(k: State) {
    && (forall t :: t in k.calls && k.calls[t].pc in {Releasing, Returned} ==> t in k.served)
    && (forall t :: t in k.calls ==> k.calls[t].request.sector < NUM_SECTORS)
  }

  /** Request and store agree: what was read or written is what the sector holds. */
  predicate Agrees(k: State, c: Call)
    requires c.request.sector < NUM_SECTORS
  {
    k.store[c.request.sector] == if c.request.Read? then c.data else c.request.data
  }

  /** While a call is under way nothing changes under its hands. */
  ghost predicate StableOk(k: State) {
    forall t :: t in k.calls && k.calls[t].pc in {Waiting, Releasing} && k.calls[t].request.sector < NUM_SECTORS ==>
      Agrees(k, k.calls[t])
  }

  ghost predicate Inv(k: State) {
    LockOk(k) && DiskOk(k) && ServedOk(k) && StableOk(k) && !k.failed
  }

  lemma NextKeepsInv(k: State, a: Action)
    requires Inv(k) && Enabled(k, a)
    ensures Inv(Next(k, a))
  {
    match a
    case Begin(t, request, buffer) =>
    case Step(t) =>
    case Interrupt(i) =>
      assert k.pending[..i] + k.pending[i + 1..] == [];
  }

  ghost predicate Reaches(k: State, run: seq<Action>, k': State)
    decreases |run|
  {
    if run == [] then k' == k else Enabled(k, run[0]) && Reaches(Next(k, run[0]), run[1..], k')
  }

  predicate Start(k: State) {
    && k.calls == map[] && k.lock == None && k.semaphore == 0 && !k.active && k.pending == []
    && k.served == {} && !k.failed && k.log == []
  }

  lemma {:induction false} RunKeepsInv(k: State, run: seq<Action>, k': State)
    requires Inv(k) && Reaches(k, run, k')
    ensures Inv(k')
    decreases |run|
  {
    if run != [] {
      NextKeepsInv(k, run[0]);
      RunKeepsInv(Next(k, run[0]), run[1..], k');
    }
  }

  /** What would come of a request to an active disk: the raw disk's assertion fails. */
  lemma ActiveDiskIsNotAsked(k: State, t: Tid)
    requires t in k.calls && k.calls[t].request.sector < NUM_SECTORS
    ensures Requested(k, t).failed <==> k.failed || k.active
    ensures k.active ==> Requested(k, t).store == k.store && Requested(k, t).pending == k.pending
  {}

  /** In every run the raw disk is never asked while active, a free lock means an idle disk and an empty
    semaphore, and a call gets past P only after its own interrupt. */
  lemma OneRequestAtATime(start: State, run: seq<Action>, k: State)
    requires Start(start) && Reaches(start, run, k)
    ensures !k.failed
    ensures forall t :: t in k.calls && k.calls[t].pc == Requesting ==> !k.active
    ensures k.lock == None ==> k.semaphore == 0 && !k.active && k.pending == []
    ensures forall t :: t in k.calls && k.calls[t].pc in {Releasing, Returned} ==> t in k.served
  {
    RunKeepsInv(start, run, k);
  }

  /** In every run, when a call is about to return, its sector holds what the call read or wrote: to its caller
    the disk has not changed since the request. */
  lemma CallsAreAtomic(start: State, run: seq<Action>, k: State, t: Tid)
    requires Start(start) && Reaches(start, run, k) && t in k.calls && k.calls[t].pc == Releasing
    ensures k.calls[t].request.sector < NUM_SECTORS && Agrees(k, k.calls[t])
  {
    RunKeepsInv(start, run, k);
  }

  // ---- The calls take effect one after another ----

  /** The store after the requests of `log`, done one at a time. */
  function Replay(start: Store, log: seq<Entry>): Store {
    if log == [] then start
    else
      var before, last := Replay(start, log[..|log| - 1]), log[|log| - 1].request;
      if last.Write? && last.sector < NUM_SECTORS then before[last.sector := last.data] else before
  }

  predicate Issued(pc: Pc) {
    pc in {Waiting, Releasing, Returned}
  }

  /** What the i-th request found, or left, is what a plain disk would have held at that point. */
  ghost predicate EntryOk(start: Store, k: State, i: nat)
    requires i < |k.log|
  {
    var e := k.log[i];
    && e.t in k.calls && k.calls[e.t].request == e.request && Issued(k.calls[e.t].pc)
    && e.request.sector < NUM_SECTORS
    && (e.request.Read? ==> k.calls[e.t].data == Replay(start, k.log[..i])[e.request.sector])
  }

  ghost predicate LogOk(start: Store, k: State) {
    && k.store == Replay(start, k.log)
    && (forall i :: 0 <= i < |k.log| ==> EntryOk(start, k, i))
    && (forall i, j :: 0 <= i < j < |k.log| ==> k.log[i].t != k.log[j].t)
    && (forall t :: t in k.calls && Issued(k.calls[t].pc) ==> exists i :: 0 <= i < |k.log| && k.log[i].t == t)
  }

  lemma NewEntry(start: Store, k: State, t: Tid, i: nat)
    requires LogOk(start, k) && t in k.calls && k.calls[t].pc == Requesting && !k.active
    requires k.calls[t].request.sector < NUM_SECTORS && i <= |k.log|
    ensures EntryOk(start, Requested(k, t), i)
    ensures i < |k.log| ==> k.log[i].t != t
  {
    var k' := Requested(k, t);
    assert k'.log[..i] == k.log[..i] && k'.log[|k.log|] == Entry(t, k.calls[t].request);
    if i < |k.log| {
      assert EntryOk(start, k, i);
    } else {
      assert k.log[..i] == k.log;
    }
  }

  lemma RequestIsLogged(start: Store, k: State, t: Tid)
    requires LogOk(start, k) && t in k.calls && k.calls[t].pc == Requesting && !k.active
    requires k.calls[t].request.sector < NUM_SECTORS
    ensures LogOk(start, Requested(k, t))
  {
    var k', n := Requested(k, t), |k.log|;
    assert k'.log[..n] == k.log && k'.log[n] == Entry(t, k.calls[t].request);
    forall i | 0 <= i <= n
      ensures EntryOk(start, k', i) && (i < n ==> k'.log[i].t != t)
    {
      NewEntry(start, k, t, i);
    }
    forall u | u in k'.calls && Issued(k'.calls[u].pc)
      ensures exists i :: 0 <= i < |k'.log| && k'.log[i].t == u
    {
      StillLogged(start, k, t, u);
    }
  }

  lemma StillLogged(start: Store, k: State, t: Tid, u: Tid)
    requires LogOk(start, k) && t in k.calls && !k.active && k.calls[t].request.sector < NUM_SECTORS
    requires u in k.calls && (u == t || Issued(k.calls[u].pc))
    ensures exists i :: 0 <= i < |Requested(k, t).log| && Requested(k, t).log[i].t == u
  {
    var log := Requested(k, t).log;
    if u == t {
      assert log[|k.log|].t == u;
    } else {
      var i :| 0 <= i < |k.log| && k.log[i].t == u;
      assert log[i].t == u;
    }
  }

  /** Calls keep their requests, and their results once they have them. */
  ghost predicate Kept(k: State, k': State) {
    && k'.log == k.log && k'.store == k.store
    && (forall t :: t in k.calls ==> t in k'.calls && k'.calls[t].request == k.calls[t].request
                                     && k'.calls[t].data == k.calls[t].data
                                     && (Issued(k.calls[t].pc) ==> Issued(k'.calls[t].pc)))
    && (forall t :: t in k'.calls && Issued(k'.calls[t].pc) ==> t in k.calls && Issued(k.calls[t].pc))
  }

  lemma OtherStepsKeep(k: State, a: Action)
    requires Inv(k) && Enabled(k, a) && !(a.Step? && k.calls[a.t].pc == Requesting)
    ensures Kept(k, Next(k, a))
  {}

  lemma KeptLog(start: Store, k: State, k': State)
    requires LogOk(start, k) && Kept(k, k')
    ensures LogOk(start, k')
  {
    forall i | 0 <= i < |k'.log|
      ensures EntryOk(start, k', i)
    {
      assert EntryOk(start, k, i);
    }
  }

  lemma {:induction false} RunIsLogged(start: Store, k: State, run: seq<Action>, k': State)
    requires Inv(k) && LogOk(start, k) && Reaches(k, run, k')
    ensures LogOk(start, k')
    decreases |run|
  {
    if run != [] {
      var a, next := run[0], Next(k, run[0]);
      NextKeepsInv(k, a);
      if a.Step? && k.calls[a.t].pc == Requesting {
        RequestIsLogged(start, k, a.t);
      } else {
        OtherStepsKeep(k, a);
        KeptLog(start, k, next);
      }
      RunIsLogged(start, next, run[1..], k');
    }
  }

  /** However the calls of a run overlap, there is one order of them, each once, such that every call's result is
    that of doing them one at a time on a plain store. */
  lemma CallsAreSequential(start: State, run: seq<Action>, k: State)
    requires Start(start) && Reaches(start, run, k)
    ensures LogOk(start.store, k)
  {
    RunIsLogged(start.store, start, run, k);
  }

  lemma {:induction false} LogGrows(k: State, run: seq<Action>, k': State)
    requires Reaches(k, run, k')
    ensures k.log <= k'.log
    decreases |run|
  {
    if run != [] {
      LogGrows(Next(k, run[0]), run[1..], k');
    }
  }

  /** That order is the order of time where there is one: of two calls in it, the first of which had returned in
    some state `m` of the run in which the second had not begun, the first comes earlier. */
  lemma LogKeepsRealTime(start: State, early: seq<Action>, m: State, late: seq<Action>, k: State, i: nat, j: nat)
    requires Start(start) && Reaches(start, early, m) && Reaches(m, late, k) && i < |k.log| && j < |k.log|
    requires k.log[i].t in m.calls && m.calls[k.log[i].t].pc == Returned && k.log[j].t !in m.calls
    ensures i < j
  {
    RunIsLogged(start.store, start, early, m);
    RunKeepsInv(start, early, m);
    RunIsLogged(start.store, m, late, k);
    LogGrows(m, late, k);
    var first :| 0 <= first < |m.log| && m.log[first].t == k.log[i].t;
    assert k.log[first] == m.log[first];
    assert i == first;
    OnlyCallsAreLogged(start.store, m);
  }

  lemma OnlyCallsAreLogged(start: Store, k: State)
    requires LogOk(start, k)
    ensures forall i :: 0 <= i < |k.log| ==> k.log[i].t in k.calls
  {
    forall i | 0 <= i < |k.log|
      ensures k.log[i].t in k.calls
    {
      assert EntryOk(start, k, i);
    }
  }

  // How long a run can be

  /** How far a call has come; while it waits, that depends on whether its interrupt has come. */
  function Stage(k: State, c: Call): nat {
    match c.pc
    case AtLock => 1
    case Requesting => 2
    case Waiting => if k.active then 3 else 4
    case Releasing => 5
    case Returned => 6
  }

  function Stages(k: State): map<Tid, nat> {
    map t | t in k.calls :: Stage(k, k.calls[t])
  }

  function Whose(k: State, a: Action): Tid
    requires Enabled(k, a)
  {
    if a.Interrupt? then k.pending[a.i] else a.t
  }

  lemma NextForward(k: State, a: Action)
    requires Inv(k) && Enabled(k, a)
    ensures Forward(Stages(k), Stages(Next(k, a)), Whose(k, a))
  {}

  lemma {:induction false} StepsOfRun(k: State, run: seq<Action>, k': State)
    requires Inv(k) && Reaches(k, run, k')
    ensures |run| + |Steps(Stages(k))| <= |Steps(Stages(k'))|
    decreases |run|
  {
    if run != [] {
      NextKeepsInv(k, run[0]);
      NextForward(k, run[0]);
      MoreSteps(Stages(k), Stages(Next(k, run[0])), Whose(k, run[0]));
      StepsOfRun(Next(k, run[0]), run[1..], k');
    }
  }

  /** No run is longer than six steps for each call, its interrupt included, so that every schedule comes to an end. */
  lemma EveryScheduleEnds(start: State, run: seq<Action>, k: State)
    requires Start(start) && Reaches(start, run, k)
    ensures |run| <= 6 * |k.calls|
  {
    StepsOfRun(start, run, k);
    FewSteps(Stages(k), 6);
    assert Stages(k).Keys == k.calls.Keys;
  }

  /** When nobody can go on and no interrupt is due, every call has returned. */
  lemma EveryCallReturns(start: State, run: seq<Action>, k: State)
    requires Start(start) && Reaches(start, run, k)
    requires k.pending == [] && forall t :: t in k.calls ==> !Ready(k, k.calls[t])
    ensures forall t :: t in k.calls ==> k.calls[t].pc == Returned
  {
    RunKeepsInv(start, run, k);
    Quiet(k);
  }

  lemma Quiet(k: State)
    requires LockOk(k) && DiskOk(k) && k.pending == [] && forall t :: t in k.calls ==> !Ready(k, k.calls[t])
    ensures forall t :: t in k.calls ==> k.calls[t].pc == Returned
  {
    if k.lock != None {
      Holder(k, k.lock.value);
    }
  }

  lemma Holder(k: State, t: Tid)
    requires LockOk(k) && DiskOk(k) && k.pending == [] && k.lock == Some(t)
    ensures t in k.calls && Ready(k, k.calls[t])
  {}
}
