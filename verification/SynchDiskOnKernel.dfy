/** The synchronous disk's calls on the kernel's own lock and semaphore: any run of kernel threads, some of which
  call the disk, is a run of the protocol in SynchDiskProtocol, so that its theorems hold of them.

  A call is made by the running thread, which may make another once it has returned, as often as it likes. Between
  two of its steps the kernel may do anything else, and the interrupt handler's V is the kernel's. Whether a step is
  possible is up to the kernel alone. */
module SynchDiskOnKernel {
  import opened Options
  import opened WaitLists
  import opened Sectors
  import opened Synch
  import K = Kernel
  import P = SynchDiskProtocol

  /** The disk's lock and semaphore among the kernel's. */
  const LOCK: nat := 0
  const DONE: nat := 0

  /** Calls have numbers of their own; `current` is each thread's latest. Of `disk` the calls and the raw disk are
    meant; its lock and semaphore are those of the kernel. */
  datatype Machine = Machine(k: K.State, disk: P.State, current: map<Tid, Tid>)

  datatype Action =
    | Begin(t: Tid, c: Tid, request: P.Request, buffer: Sector)
    | Request(t: Tid)
    | Interrupt(i: nat)
    | Other(a: K.Action)

  // ---- The code ----

  /** What the running thread does with the disk's lock and semaphore. */
  predicate Acquires(k: K.State, a: K.Action) {
    a == K.DoAcquire(LOCK) || (a.DoResume? && K.Runs(k) && K.Me(k).cont == K.InAcquire(LOCK))
  }

  predicate Awaits(k: K.State, a: K.Action) {
    a == K.DoP(DONE) || (a.DoResume? && K.Runs(k) && K.Me(k).cont == K.InP(DONE))
  }

  predicate Releases(a: K.Action) {
    a == K.DoRelease(LOCK)
  }

  /** Anything that has to do with other locks and semaphores, or with none. */
  predicate Unrelated(k: K.State, a: K.Action) {
    match a
    case DoP(s) => s != DONE
    case DoV(s) => s != DONE
    case InterruptV(s) => s != DONE
    case DoAcquire(l) => l != LOCK
    case DoRelease(l) => l != LOCK
    case DoWait(_, l) => l != LOCK
    case DoResume => K.Runs(k) && ResumesElsewhere(K.Me(k).cont)
    case _ => true
  }

  predicate ResumesElsewhere(cont: K.Continuation) {
    match cont
    case InP(s) => s != DONE
    case InAcquire(l) => l != LOCK
    case InWait(_, l) => l != LOCK
    case _ => true
  }

  /** The thread's latest call is at that point. */
  predicate CallIsAt(m: Machine, t: Tid, pc: P.Pc) {
    t in m.current && m.current[t] in m.disk.calls && m.disk.calls[m.current[t]].pc == pc
  }

  predicate IsAt(m: Machine, pc: P.Pc) {
    m.k.cpu.Some? && CallIsAt(m, m.k.cpu.value, pc)
  }

  predicate IsMe(k: K.State, t: Tid) {
    K.Free(k) && k.cpu == Some(t)
  }

  ghost predicate Enabled(m: Machine, x: Action) {
    match x
    case Begin(t, c, request, _) =>
      && IsMe(m.k, t) && (t in m.current ==> CallIsAt(m, t, P.Returned))
      && c !in m.disk.calls && request.sector < NUM_SECTORS
    case Request(t) =>
      IsMe(m.k, t) && IsAt(m, P.Requesting) && m.disk.calls[m.current[t]].request.sector < NUM_SECTORS
    case Interrupt(i) => i < |m.disk.pending| && DONE in m.k.sems
    case Other(a) =>
      && K.Enabled(m.k, a)
      && (Unrelated(m.k, a) || (Acquires(m.k, a) && IsAt(m, P.AtLock)) || (Awaits(m.k, a) && IsAt(m, P.Waiting))
          || (Releases(a) && IsAt(m, P.Releasing)))
  }

  /** Where call `c` is after a step of its thread `t` with the disk's lock or semaphore: on, if that returned. */
  function Onward(disk: P.State, k': K.State, t: Tid, c: Tid): P.State
    requires c in disk.calls
  {
    if t !in k'.threads || k'.threads[t].cont != K.InUser then disk
    else
      match disk.calls[c].pc
      case AtLock => P.At(disk, c, P.Requesting)
      case Waiting => P.At(disk, c, P.Releasing)
      case Releasing => P.At(disk, c, P.Returned)
      case _ => disk
  }

  ghost function Next(m: Machine, x: Action): Machine
    requires Enabled(m, x)
  {
    match x
    case Begin(t, c, request, buffer) =>
      m.(current := m.current[t := c], disk := m.disk.(calls := m.disk.calls[c := P.Call(request, P.AtLock, buffer)]))
    case Request(t) => m.(disk := P.Requested(m.disk, m.current[t]))
    case Interrupt(i) =>
      var d := m.disk;
      m.(k := K.StepV(m.k, DONE), disk := d.(active := false, pending := d.pending[..i] + d.pending[i + 1..],
                                             served := d.served + {d.pending[i]}))
    case Other(a) =>
      var k' := K.Next(m.k, a);
      if Unrelated(m.k, a) then m.(k := k')
      else m.(k := k', disk := Onward(m.disk, k', m.k.cpu.value, m.current[m.k.cpu.value]))
  }

  /** The machine's kernel takes the kernel's steps, an interrupt's V among them; beginning a call and asking the raw
    disk leave it alone. */
  lemma KernelTakesItsSteps(m: Machine, x: Action)
    requires Enabled(m, x)
    ensures x.Other? ==> Next(m, x).k == K.Next(m.k, x.a)
    ensures x.Interrupt? ==> K.Enabled(m.k, K.InterruptV(DONE)) && Next(m, x).k == K.Next(m.k, K.InterruptV(DONE))
    ensures x.Begin? || x.Request? ==> Next(m, x).k == m.k
  {}

  /** A call that begins is its thread's latest, and about to take the lock; no other thread and no other call
    changes. */
  lemma CallBegins(m: Machine, t: Tid, c: Tid, request: P.Request, buffer: Sector)
    requires Enabled(m, Begin(t, c, request, buffer))
    ensures var m' := Next(m, Begin(t, c, request, buffer));
            && CallIsAt(m', t, P.AtLock) && m'.current[t] == c && m'.disk.calls[c].request == request
            && (forall u :: u in m.current && u != t ==> u in m'.current && m'.current[u] == m.current[u])
            && (forall d :: d in m.disk.calls ==> d in m'.disk.calls && m'.disk.calls[d] == m.disk.calls[d])
  {}

  // ---- What the kernel does to one lock and one semaphore ----

  /** Nobody's hold of `l` and no unit of `s` changes. */
  ghost predicate Leaves(k: K.State, k': K.State, l: nat, s: nat) {
    && k'.locks.Keys == k.locks.Keys && k'.sems.Keys == k.sems.Keys && K.Holders(k', l) == K.Holders(k, l)
    && (s in k.sems ==> k'.sems[s].value == k.sems[s].value)
  }

  lemma DispatchLeaves(k: K.State, l: nat, s: nat)
    ensures Leaves(k, K.Dispatch(k), l, s)
  {}

  lemma WakeUpLeaves(k: K.State, woken: Option<Tid>, l: nat, s: nat)
    ensures Leaves(k, K.WakeUp(k, woken), l, s)
  {}

  lemma PLeaves(k: K.State, s': nat, l: nat, s: nat)
    requires K.Runs(k) && s' in k.sems && s' != s
    ensures Leaves(k, K.StepP(k, s'), l, s)
  {
    assert Leaves(k, K.PTurn(k, s'), l, s);
    DispatchLeaves(K.PTurn(k, s'), l, s);
  }

  lemma PHolders(k: K.State, s: nat, l: nat)
    requires K.Runs(k) && s in k.sems
    ensures K.Holders(K.StepP(k, s), l) == K.Holders(k, l) && K.StepP(k, s).locks.Keys == k.locks.Keys
  {
    assert K.Holders(K.PTurn(k, s), l) == K.Holders(k, l);
    DispatchLeaves(K.PTurn(k, s), l, s);
  }

  lemma VLeaves(k: K.State, s': nat, l: nat, s: nat)
    requires s' in k.sems && s' != s
    ensures Leaves(k, K.StepV(k, s'), l, s)
  {
    var (sem, woken) := VStep(k.sems[s']);
    WakeUpLeaves(k.(sems := k.sems[s' := sem]), woken, l, s);
  }

  lemma VAdds(k: K.State, s: nat, l: nat)
    requires s in k.sems
    ensures var k' := K.StepV(k, s); s in k'.sems && k'.sems[s].value == k.sems[s].value + 1
    ensures K.Holders(K.StepV(k, s), l) == K.Holders(k, l) && K.StepV(k, s).locks.Keys == k.locks.Keys
  {
    var (sem, woken) := VStep(k.sems[s]);
    WakeUpLeaves(k.(sems := k.sems[s := sem]), woken, l, s);
  }

  lemma AcquireTurnLeaves(k: K.State, l': nat, l: nat, s: nat)
    requires K.Runs(k) && l' in k.locks && l' != l
    ensures Leaves(k, K.StepAcquireTurn(k, l'), l, s)
  {
    assert Leaves(k, K.AcquireTurn(k, l'), l, s);
    DispatchLeaves(K.AcquireTurn(k, l'), l, s);
  }

  lemma AcquireLeaves(k: K.State, l': nat, l: nat, s: nat)
    requires K.Runs(k) && l' in k.locks && l' != l
    ensures Leaves(k, K.StepAcquire(k, l'), l, s)
  {
    AcquireTurnLeaves(k, l', l, s);
  }

  lemma ReleaseLeaves(k: K.State, l': nat, l: nat, s: nat)
    requires K.Runs(k) && l' in k.locks && l' != l
    ensures Leaves(k, K.StepRelease(k, l'), l, s)
  {
    var (lock, woken) := ReleaseStep(k.locks[l']);
    var k1 := K.Freed(k, l').(locks := k.locks[l' := lock]);
    assert Leaves(k, k1, l, s);
    WakeUpLeaves(k1, woken, l, s);
  }

  lemma WaitLeaves(k: K.State, c: nat, l': nat, l: nat, s: nat)
    requires K.Runs(k) && c in k.conds && l' in k.locks && l' != l
    ensures Leaves(k, K.StepWait(k, c, l'), l, s)
  {
    var k1 := K.StepRelease(k, l');
    ReleaseLeaves(k, l', l, s);
    if K.Runs(k1) && c in k1.conds {
      assert Leaves(k1, K.Enlisted(k1, c, l'), l, s);
      DispatchLeaves(K.Enlisted(k1, c, l'), l, s);
    }
  }

  lemma {:induction false} BroadcastLeaves(k: K.State, c: nat, l: nat, s: nat)
    requires c in k.conds
    ensures Leaves(k, K.StepBroadcast(k, c), l, s)
    decreases |k.conds[c]|
  {
    if k.conds[c] != [] {
      BroadcastLeaves(K.StepSignal(k, c), c, l, s);
    }
  }

  lemma YieldLeaves(k: K.State, l: nat, s: nat)
    requires K.Runs(k)
    ensures Leaves(k, K.StepYield(k), l, s)
  {
    if k.ready != [] {
      DispatchLeaves(K.SteppedAside(k), l, s);
      WakeUpLeaves(K.Dispatch(K.SteppedAside(k)), k.cpu, l, s);
    }
  }

  lemma FinishLeaves(k: K.State, l: nat, s: nat)
    requires K.Runs(k)
    ensures Leaves(k, K.StepFinish(k), l, s)
  {
    DispatchLeaves(K.Suspended(k, K.Finished), l, s);
  }

  lemma CreateLeaves(k: K.State, t: Tid, name: string, priority: int, l: nat, s: nat)
    requires t !in k.threads
    ensures Leaves(k, K.Created(k, t, name, priority), l, s)
  {}

  lemma SetPriorityLeaves(k: K.State, t: Tid, newPriority: int, l: nat, s: nat)
    requires t in k.threads
    ensures Leaves(k, K.StepSetPriority(k, t, newPriority), l, s)
  {}

  lemma SignalLeaves(k: K.State, c: nat, l: nat, s: nat)
    requires c in k.conds
    ensures Leaves(k, K.StepSignal(k, c), l, s)
  {}

  lemma ResumeLeaves(k: K.State)
    requires K.Runs(k) && K.ContinuationOk(k, K.Me(k)) && Unrelated(k, K.DoResume)
    ensures Leaves(k, K.StepResume(k), LOCK, DONE)
  {
    match K.Me(k).cont
    case InP(s) => PLeaves(k, s, LOCK, DONE);
    case InAcquire(l) => AcquireTurnLeaves(k, l, LOCK, DONE);
    case InWait(_, l) => AcquireLeaves(k, l, LOCK, DONE);
    case _ =>
  }

  lemma SchedulingLeaves(k: K.State, a: K.Action)
    requires K.Enabled(k, a) && K.IsScheduling(a)
    ensures Leaves(k, K.Next(k, a), LOCK, DONE)
  {
    match a
    case DoYield => YieldLeaves(k, LOCK, DONE);
    case DoFinish => FinishLeaves(k, LOCK, DONE);
    case DoCreate(t, name, priority) => CreateLeaves(k, t, name, priority, LOCK, DONE);
    case DoFork(t) => WakeUpLeaves(k, Some(t), LOCK, DONE);
    case DoSetPriority(t, newPriority) => SetPriorityLeaves(k, t, newPriority, LOCK, DONE);
    case EndIdle => DispatchLeaves(k, LOCK, DONE);
  }

  lemma UnrelatedLeaves(k: K.State, a: K.Action)
    requires K.Enabled(k, a) && Unrelated(k, a)
    ensures Leaves(k, K.Next(k, a), LOCK, DONE)
  {
    if K.IsScheduling(a) {
      SchedulingLeaves(k, a);
    } else {
      match a
      case DoP(s) => PLeaves(k, s, LOCK, DONE);
      case DoV(s) => VLeaves(k, s, LOCK, DONE);
      case DoAcquire(l) => AcquireLeaves(k, l, LOCK, DONE);
      case DoRelease(l) => ReleaseLeaves(k, l, LOCK, DONE);
      case DoWait(c, l) => WaitLeaves(k, c, l, LOCK, DONE);
      case DoSignal(c, _) => SignalLeaves(k, c, LOCK, DONE);
      case DoBroadcast(c, _) => BroadcastLeaves(k, c, LOCK, DONE);
      case DoResume => ResumeLeaves(k);
      case InterruptV(s) => VLeaves(k, s, LOCK, DONE);
    }
  }

  // ---- Every step is one of the protocol, or none ----

  /** The protocol's state: the lock is with the call of whoever the kernel says, the semaphore is the kernel's. */
  function View(m: Machine, lock: Option<Tid>): P.State
    requires DONE in m.k.sems && (lock.Some? ==> lock.value in m.current)
  {
    m.disk.(lock := if lock.Some? then Some(m.current[lock.value]) else None, semaphore := m.k.sems[DONE].value)
  }

  function HolderSet(lock: Option<Tid>): set<Tid> {
    if lock.Some? then {lock.value} else {}
  }

  /** The kernel's invariant holds, and `lock` says who is inside the disk's lock. */
  ghost predicate Sound(m: Machine, lock: Option<Tid>) {
    && K.Inv(m.k) && LOCK in m.k.locks && DONE in m.k.sems
    && K.Holders(m.k, LOCK) == HolderSet(lock) && (lock.Some? ==> lock.value in m.current)
    && (forall t :: t in m.current ==> m.current[t] in m.disk.calls)
    && forall t, u :: t in m.current && u in m.current && m.current[t] == m.current[u] ==> t == u
  }

  ghost predicate Inv(m: Machine, lock: Option<Tid>) {
    Sound(m, lock) && P.Inv(View(m, lock))
  }

  /** One step of the protocol, or nothing. */
  ghost predicate Follows(p: P.State, p': P.State) {
    p' == p || exists a :: P.Enabled(p, a) && p' == P.Next(p, a)
  }

  /** The kernel's part of a step that leaves the disk's lock and semaphore alone. */
  lemma KeepsSound(m: Machine, m': Machine, lock: Option<Tid>)
    requires Sound(m, lock) && K.Inv(m'.k) && Leaves(m.k, m'.k, LOCK, DONE)
    requires m'.disk == m.disk && m'.current == m.current
    ensures Sound(m', lock) && View(m', lock) == View(m, lock)
  {}

  lemma BeginFollows(m: Machine, t: Tid, c: Tid, request: P.Request, buffer: Sector, lock: Option<Tid>)
    requires Inv(m, lock) && Enabled(m, Begin(t, c, request, buffer))
    ensures var m' := Next(m, Begin(t, c, request, buffer)); Sound(m', lock) && Follows(View(m, lock), View(m', lock))
  {
    var m', a := Next(m, Begin(t, c, request, buffer)), P.Begin(c, request, buffer);
    assert lock != Some(t);
    assert P.Enabled(View(m, lock), a) && View(m', lock) == P.Next(View(m, lock), a);
  }

  lemma RequestFollows(m: Machine, t: Tid, lock: Option<Tid>)
    requires Sound(m, lock) && Enabled(m, Request(t))
    ensures var m' := Next(m, Request(t)); Sound(m', lock) && Follows(View(m, lock), View(m', lock))
  {
    var m', a := Next(m, Request(t)), P.Step(m.current[t]);
    assert P.Enabled(View(m, lock), a) && View(m', lock) == P.Next(View(m, lock), a);
  }

  lemma InterruptIsSound(m: Machine, i: nat, lock: Option<Tid>)
    requires Sound(m, lock) && Enabled(m, Interrupt(i))
    ensures var m' := Next(m, Interrupt(i)); Sound(m', lock) && m'.k.sems[DONE].value == m.k.sems[DONE].value + 1
  {
    VAdds(m.k, DONE, LOCK);
    K.VKeepsInv(m.k, DONE);
  }

  lemma InterruptFollows(m: Machine, i: nat, lock: Option<Tid>)
    requires Sound(m, lock) && Enabled(m, Interrupt(i))
    ensures var m' := Next(m, Interrupt(i)); Sound(m', lock) && Follows(View(m, lock), View(m', lock))
  {
    InterruptIsSound(m, i, lock);
    var m', a := Next(m, Interrupt(i)), P.Interrupt(i);
    assert P.Enabled(View(m, lock), a) && View(m', lock) == P.Next(View(m, lock), a);
  }

  lemma UnrelatedFollows(m: Machine, a: K.Action, lock: Option<Tid>)
    requires Sound(m, lock) && Enabled(m, Other(a)) && Unrelated(m.k, a)
    ensures var m' := Next(m, Other(a)); Sound(m', lock) && Follows(View(m, lock), View(m', lock))
  {
    UnrelatedLeaves(m.k, a);
    K.NextKeepsInv(m.k, a);
    KeepsSound(m, Next(m, Other(a)), lock);
  }

  /** The protocol's step of one call, with the lock and the semaphore before and after it. */
  ghost predicate Steps(d: P.State, c: Tid, lock: Option<Tid>, value: int, pc: P.Pc, lock': Option<Tid>, value': int) {
    var p := d.(lock := lock, semaphore := value);
    && c in d.calls && P.Enabled(p, P.Step(c))
    && P.Next(p, P.Step(c)) == P.At(d, c, pc).(lock := lock', semaphore := value')
  }

  lemma AcquireStep(d: P.State, c: Tid, value: int)
    requires c in d.calls && d.calls[c].pc == P.AtLock && d.calls[c].request.sector < NUM_SECTORS
    ensures Steps(d, c, None, value, P.Requesting, Some(c), value)
  {}

  lemma AwaitStep(d: P.State, c: Tid, lock: Option<Tid>, value: int)
    requires c in d.calls && d.calls[c].pc == P.Waiting && d.calls[c].request.sector < NUM_SECTORS && value > 0
    ensures Steps(d, c, lock, value, P.Releasing, lock, value - 1)
  {}

  lemma ReleaseStepOf(d: P.State, c: Tid, lock: Option<Tid>, value: int)
    requires c in d.calls && d.calls[c].pc == P.Releasing && d.calls[c].request.sector < NUM_SECTORS
    ensures Steps(d, c, lock, value, P.Returned, None, value)
  {}

  /** Such a step is what the machine has done, if the kernel's lock and semaphore have changed so. */
  lemma StepsFollow(m: Machine, m': Machine, c: Tid, pc: P.Pc, lock: Option<Tid>, lock': Option<Tid>)
    requires Sound(m, lock) && Sound(m', lock') && m'.current == m.current
    requires c in m.disk.calls && m'.disk == P.At(m.disk, c, pc)
    requires Steps(m.disk, c, View(m, lock).lock, m.k.sems[DONE].value,
                   pc, View(m', lock').lock, m'.k.sems[DONE].value)
    ensures Follows(View(m, lock), View(m', lock'))
  {
    assert P.Enabled(View(m, lock), P.Step(c)) && View(m', lock') == P.Next(View(m, lock), P.Step(c));
  }

  /** The running thread's step with the disk's lock or semaphore has returned, and its call goes on. */
  ghost predicate GoesOn(m: Machine, m': Machine, pc: P.Pc) {
    && IsAt(m, pc) && m'.current == m.current
    && m.k.cpu.value in m'.k.threads && m'.k.threads[m.k.cpu.value].cont == K.InUser
    && m'.disk == Onward(m.disk, m'.k, m.k.cpu.value, m.current[m.k.cpu.value])
  }

  lemma CallGoesOn(m: Machine, a: K.Action, pc: P.Pc)
    requires Enabled(m, Other(a)) && !Unrelated(m.k, a) && IsAt(m, pc)
    requires var k', t := K.Next(m.k, a), m.k.cpu.value; t in k'.threads && k'.threads[t].cont == K.InUser
    ensures GoesOn(m, Next(m, Other(a)), pc)
  {}

  /** Requests are for sectors on the disk. */
  lemma OnDisk(m: Machine, lock: Option<Tid>, c: Tid)
    requires Inv(m, lock) && c in m.disk.calls
    ensures m.disk.calls[c].request.sector < NUM_SECTORS
  {
    assert c in View(m, lock).calls;
  }

  // The lock is taken

  /** Acquire by a thread outside the lock, first turn or later. */
  lemma AcquireTurns(k: K.State, a: K.Action)
    requires K.Inv(k) && K.Enabled(k, a) && Acquires(k, a) && LOCK in k.locks && k.cpu.value !in K.Holders(k, LOCK)
    ensures K.Next(k, a) == K.StepAcquireTurn(k, LOCK) && K.Me(k).cont in {K.InUser, K.InAcquire(LOCK)}
  {
    assert !IsHeldBy(k.locks[LOCK], K.Me(k).name);
  }

  lemma AcquireOutcome(k: K.State, l: nat)
    requires K.Inv(k) && K.Runs(k) && l in k.locks
    requires K.Me(k).cont in {K.InUser, K.InAcquire(l)} && k.cpu.value !in K.Holders(k, l)
    ensures var k', t := K.StepAcquireTurn(k, l), k.cpu.value;
            && t in k'.threads && k'.sems == k.sems && k'.locks.Keys == k.locks.Keys
            && (k'.threads[t].cont == K.InUser <==> !k.locks[l].held)
            && K.Holders(k', l) == K.Holders(k, l) + if k.locks[l].held then {} else {t}
  {
    var t := k.cpu.value;
    K.AcquireTurnHolding(k, l);
    if k.locks[l].held {
      AcquireSleeps(k, l);
    } else {
      assert K.StepAcquireTurn(k, l) == K.AcquireTurn(k, l);
    }
  }

  lemma AcquireSleeps(k: K.State, l: nat)
    requires K.Inv(k) && K.Runs(k) && l in k.locks && K.Me(k).cont in {K.InUser, K.InAcquire(l)} && k.locks[l].held
    requires k.cpu.value !in K.Holders(k, l)
    ensures var k', t := K.StepAcquireTurn(k, l), k.cpu.value;
            t in k'.threads && k'.threads[t].cont != K.InUser && K.Holders(k', l) == K.Holders(k, l)
            && k'.locks.Keys == k.locks.Keys
  {
    var k1 := K.AcquireTurn(k, l);
    assert K.Holders(k1, l) == K.Holders(k, l) && k1.locks.Keys == k.locks.Keys;
    DispatchLeaves(k1, l, DONE);
    assert k1.threads[k.cpu.value].cont == K.InAcquire(l);
  }

  lemma NobodyHoldsFree(k: K.State, l: nat)
    requires K.HoldingExact(k) && l in k.locks && !k.locks[l].held
    ensures K.Holders(k, l) == {}
  {
    forall t | t in K.Holders(k, l)
      ensures false
    {
      assert K.NameMatters(k.threads[t]);
    }
  }

  lemma AcquireGets(k: K.State, a: K.Action)
    requires K.Inv(k) && K.Enabled(k, a) && Acquires(k, a) && LOCK in k.locks && !k.locks[LOCK].held
    requires k.cpu.value !in K.Holders(k, LOCK)
    ensures var k', t := K.Next(k, a), k.cpu.value;
            && t in k'.threads && k'.threads[t].cont == K.InUser && k'.sems == k.sems && LOCK in k'.locks
            && K.Holders(k, LOCK) == {} && K.Holders(k', LOCK) == {t}
  {
    AcquireTurns(k, a);
    AcquireOutcome(k, LOCK);
    NobodyHoldsFree(k, LOCK);
  }

  lemma AcquireGoesOn(m: Machine, m': Machine)
    requires Inv(m, None) && Sound(m', m.k.cpu) && GoesOn(m, m', P.AtLock) && m'.k.sems == m.k.sems
    ensures Follows(View(m, None), View(m', m.k.cpu))
  {
    var c := m.current[m.k.cpu.value];
    OnDisk(m, None, c);
    AcquireStep(m.disk, c, m.k.sems[DONE].value);
    StepsFollow(m, m', c, P.Requesting, None, m.k.cpu);
  }

  lemma AcquireReturns(m: Machine, a: K.Action, lock: Option<Tid>)
    requires Inv(m, lock) && Enabled(m, Other(a)) && Acquires(m.k, a) && IsAt(m, P.AtLock) && !m.k.locks[LOCK].held
    requires m.k.cpu.value !in K.Holders(m.k, LOCK)
    ensures var m', lock' := Next(m, Other(a)), m.k.cpu; Sound(m', lock') && Follows(View(m, lock), View(m', lock'))
  {
    AcquireGets(m.k, a);
    K.NextKeepsInv(m.k, a);
    CallGoesOn(m, a, P.AtLock);
    AcquireGoesOn(m, Next(m, Other(a)));
  }

  lemma AcquireKeepsTrying(k: K.State, a: K.Action)
    requires K.Inv(k) && K.Enabled(k, a) && Acquires(k, a) && LOCK in k.locks && k.locks[LOCK].held
    requires k.cpu.value !in K.Holders(k, LOCK)
    ensures var k', t := K.Next(k, a), k.cpu.value;
            t in k'.threads && k'.threads[t].cont != K.InUser && Leaves(k, k', LOCK, DONE)
  {
    AcquireTurns(k, a);
    AcquireOutcome(k, LOCK);
  }

  lemma AcquireStays(m: Machine, a: K.Action, lock: Option<Tid>)
    requires Inv(m, lock) && Enabled(m, Other(a)) && Acquires(m.k, a) && IsAt(m, P.AtLock) && m.k.locks[LOCK].held
    requires m.k.cpu.value !in K.Holders(m.k, LOCK)
    ensures var m' := Next(m, Other(a)); Sound(m', lock) && View(m', lock) == View(m, lock)
  {
    AcquireKeepsTrying(m.k, a);
    K.NextKeepsInv(m.k, a);
    KeepsSound(m, Next(m, Other(a)), lock);
  }

  lemma AcquireFollows(m: Machine, a: K.Action, lock: Option<Tid>) returns (lock': Option<Tid>)
    requires Inv(m, lock) && Enabled(m, Other(a)) && Acquires(m.k, a) && IsAt(m, P.AtLock)
    ensures var m' := Next(m, Other(a)); Sound(m', lock') && Follows(View(m, lock), View(m', lock'))
  {
    assert lock != Some(m.k.cpu.value);
    if m.k.locks[LOCK].held {
      AcquireStays(m, a, lock);
      lock' := lock;
    } else {
      AcquireReturns(m, a, lock);
      lock' := Some(m.k.cpu.value);
    }
  }

  // The semaphore is waited for

  lemma AwaitOutcome(k: K.State, a: K.Action)
    requires K.Inv(k) && K.Enabled(k, a) && Awaits(k, a) && DONE in k.sems
    ensures var k', t := K.Next(k, a), k.cpu.value;
            && t in k'.threads && DONE in k'.sems && (k'.threads[t].cont == K.InUser <==> k.sems[DONE].value > 0)
            && k'.sems[DONE].value == k.sems[DONE].value - (if k.sems[DONE].value > 0 then 1 else 0)
            && K.Holders(k', LOCK) == K.Holders(k, LOCK) && k'.locks.Keys == k.locks.Keys
  {
    assert K.Next(k, a) == K.StepP(k, DONE);
    K.ReturningFromPTakesAUnit(k, DONE);
    PHolders(k, DONE, LOCK);
    assert K.SemOk(k, DONE);
  }

  lemma AwaitFollows(m: Machine, a: K.Action, lock: Option<Tid>)
    requires Inv(m, lock) && Enabled(m, Other(a)) && Awaits(m.k, a) && IsAt(m, P.Waiting)
    ensures var m' := Next(m, Other(a)); Sound(m', lock) && Follows(View(m, lock), View(m', lock))
  {
    AwaitIsSound(m, a, lock);
    AwaitOutcome(m.k, a);
    if m.k.sems[DONE].value > 0 {
      CallGoesOn(m, a, P.Waiting);
      AwaitGoesOn(m, Next(m, Other(a)), lock);
    }
  }

  lemma AwaitIsSound(m: Machine, a: K.Action, lock: Option<Tid>)
    requires Sound(m, lock) && Enabled(m, Other(a)) && Awaits(m.k, a) && IsAt(m, P.Waiting)
    ensures Sound(Next(m, Other(a)), lock)
  {
    AwaitOutcome(m.k, a);
    K.NextKeepsInv(m.k, a);
  }

  lemma AwaitGoesOn(m: Machine, m': Machine, lock: Option<Tid>)
    requires Inv(m, lock) && Sound(m', lock) && GoesOn(m, m', P.Waiting)
    requires m.k.sems[DONE].value > 0 && m'.k.sems[DONE].value == m.k.sems[DONE].value - 1
    ensures Follows(View(m, lock), View(m', lock))
  {
    var c := m.current[m.k.cpu.value];
    OnDisk(m, lock, c);
    AwaitStep(m.disk, c, View(m, lock).lock, m.k.sems[DONE].value);
    StepsFollow(m, m', c, P.Releasing, lock, lock);
  }

  // The lock is given back

  lemma ReleaseOutcome(k: K.State, l: nat)
    requires K.Inv(k) && K.Holds(k, l)
    ensures var k', t := K.StepRelease(k, l), k.cpu.value;
            && t in k'.threads && k'.threads[t].cont == K.InUser && k'.sems == k.sems && k'.locks.Keys == k.locks.Keys
            && K.Holders(k', l) == {}
  {
    K.OneReleaseUndoesAllAcquires(k, l);
    K.ReleaseHolding(k, l);
    K.ReleaseEffect(k, l);
  }

  lemma ReleaseIsSound(m: Machine, a: K.Action, lock: Option<Tid>)
    requires Sound(m, lock) && Enabled(m, Other(a)) && Releases(a) && IsAt(m, P.Releasing)
    ensures Sound(Next(m, Other(a)), None)
  {
    ReleaseOutcome(m.k, LOCK);
    K.NextKeepsInv(m.k, a);
  }

  lemma ReleaseFollows(m: Machine, a: K.Action, lock: Option<Tid>)
    requires Inv(m, lock) && Enabled(m, Other(a)) && Releases(a) && IsAt(m, P.Releasing)
    ensures var m' := Next(m, Other(a)); Sound(m', None) && Follows(View(m, lock), View(m', None))
  {
    ReleaseIsSound(m, a, lock);
    ReleaseOutcome(m.k, LOCK);
    CallGoesOn(m, a, P.Releasing);
    ReleaseGoesOn(m, Next(m, Other(a)), lock);
  }

  lemma ReleaseGoesOn(m: Machine, m': Machine, lock: Option<Tid>)
    requires Inv(m, lock) && Sound(m', None) && GoesOn(m, m', P.Releasing) && m'.k.sems == m.k.sems
    ensures Follows(View(m, lock), View(m', None))
  {
    var c := m.current[m.k.cpu.value];
    OnDisk(m, lock, c);
    ReleaseStepOf(m.disk, c, View(m, lock).lock, m.k.sems[DONE].value);
    StepsFollow(m, m', c, P.Returned, lock, None);
  }

  lemma StepFollows(m: Machine, x: Action, lock: Option<Tid>) returns (lock': Option<Tid>)
    requires Inv(m, lock) && Enabled(m, x)
    ensures Sound(Next(m, x), lock') && Follows(View(m, lock), View(Next(m, x), lock'))
  {
    lock' := lock;
    match x
    case Begin(t, c, request, buffer) => BeginFollows(m, t, c, request, buffer, lock);
    case Request(t) => RequestFollows(m, t, lock);
    case Interrupt(i) => InterruptFollows(m, i, lock);
    case Other(a) =>
      if Unrelated(m.k, a) {
        UnrelatedFollows(m, a, lock);
      } else if Acquires(m.k, a) {
        lock' := AcquireFollows(m, a, lock);
      } else if Awaits(m.k, a) {
        AwaitFollows(m, a, lock);
      } else {
        ReleaseFollows(m, a, lock);
        lock' := None;
      }
  }

  // ---- Runs ----

  ghost predicate Reaches(m: Machine, run: seq<Action>, m': Machine)
    decreases |run|
  {
    if run == [] then m' == m else Enabled(m, run[0]) && Reaches(Next(m, run[0]), run[1..], m')
  }

  /** The kernel and the raw disk as they start. */
  ghost predicate Start(m: Machine) {
    && K.Start(m.k) && LOCK in m.k.locks && DONE in m.k.sems && m.k.sems[DONE].initial == 0
    && P.Start(m.disk) && m.current == map[]
  }

  lemma {:induction false} RunFollows(m: Machine, run: seq<Action>, m': Machine, lock: Option<Tid>)
    returns (steps: seq<P.Action>, lock': Option<Tid>)
    requires Inv(m, lock) && Reaches(m, run, m')
    ensures Inv(m', lock') && P.Reaches(View(m, lock), steps, View(m', lock'))
    decreases |run|
  {
    if run == [] {
      return [], lock;
    }
    var m1 := Next(m, run[0]);
    var lock1 := StepFollows(m, run[0], lock);
    var p, p1 := View(m, lock), View(m1, lock1);
    if p1 == p {
      steps, lock' := RunFollows(m1, run[1..], m', lock1);
    } else {
      var a :| P.Enabled(p, a) && p1 == P.Next(p, a);
      P.NextKeepsInv(p, a);
      var rest;
      rest, lock' := RunFollows(m1, run[1..], m', lock1);
      steps := [a] + rest;
      assert steps[1..] == rest;
    }
  }

  /** Every run of the kernel's threads is a run of the protocol, with the lock held by whoever the kernel says and
    the kernel's semaphore. */
  lemma KernelRunsAreProtocolRuns(start: Machine, run: seq<Action>, m: Machine)
    returns (steps: seq<P.Action>, lock: Option<Tid>)
    requires Start(start) && Reaches(start, run, m)
    ensures P.Start(View(start, None)) && Sound(m, lock) && P.Reaches(View(start, None), steps, View(m, lock))
  {
    K.StartHasInv(start.k);
    assert K.Holders(start.k, LOCK) == {};
    steps, lock := RunFollows(start, run, m, None);
  }

  /** So the disk's calls on the kernel take effect one after another, and the raw disk is never asked while active. */
  lemma CallsOnKernelAreSequential(start: Machine, run: seq<Action>, m: Machine)
    requires Start(start) && Reaches(start, run, m)
    ensures !m.disk.failed && exists lock :: Sound(m, lock) && P.LogOk(start.disk.store, View(m, lock))
  {
    var steps, lock := KernelRunsAreProtocolRuns(start, run, m);
    P.CallsAreSequential(View(start, None), steps, View(m, lock));
    P.OneRequestAtATime(View(start, None), steps, View(m, lock));
  }

  /** Their order is that of time: a call that has returned, in some state `m` of the run, comes before any that has
    not begun there, of the same thread or another. */
  lemma CallsOnKernelKeepRealTime(start: Machine, early: seq<Action>, m: Machine, late: seq<Action>, m': Machine,
                                  i: nat, j: nat)
    requires Start(start) && Reaches(start, early, m) && Reaches(m, late, m')
    requires i < |m'.disk.log| && m'.disk.log[i].t in m.disk.calls && m.disk.calls[m'.disk.log[i].t].pc == P.Returned
    requires j < |m'.disk.log| && m'.disk.log[j].t !in m.disk.calls
    ensures i < j
  {
    K.StartHasInv(start.k);
    assert K.Holders(start.k, LOCK) == {};
    var before, lock := RunFollows(start, early, m, None);
    var after, lock' := RunFollows(m, late, m', lock);
    P.LogKeepsRealTime(View(start, None), before, View(m, lock), after, View(m', lock'), i, j);
  }

  /** A running thread in a call can make the call's next step. */
  lemma CallsCanGoOn(m: Machine, lock: Option<Tid>, t: Tid)
    requires Inv(m, lock) && IsMe(m.k, t)
    ensures IsAt(m, P.AtLock) ==> Enabled(m, Other(K.DoAcquire(LOCK)))
    ensures IsAt(m, P.Requesting) ==> Enabled(m, Request(t))
    ensures IsAt(m, P.Waiting) ==> Enabled(m, Other(K.DoP(DONE)))
    ensures IsAt(m, P.Releasing) ==> Enabled(m, Other(K.DoRelease(LOCK)))
  {
    if CallIsAt(m, t, P.Releasing) {
      assert View(m, lock).lock == Some(m.current[t]);
      assert t in K.Holders(m.k, LOCK);
    }
    if CallIsAt(m, t, P.Requesting) {
      OnDisk(m, lock, m.current[t]);
    }
  }

  /** When a call returns, its thread can make another at once. */
  lemma ReturnedThreadsCallAgain(m: Machine, lock: Option<Tid>, c: Tid, request: P.Request, buffer: Sector)
    requires Inv(m, lock) && Enabled(m, Other(K.DoRelease(LOCK))) && IsAt(m, P.Releasing)
    requires c !in m.disk.calls && request.sector < NUM_SECTORS
    ensures Enabled(Next(m, Other(K.DoRelease(LOCK))), Begin(m.k.cpu.value, c, request, buffer))
  {
    ReleaseOutcome(m.k, LOCK);
    K.ReleaseEffect(m.k, LOCK);
  }
}
