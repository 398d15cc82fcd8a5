/** The thread system as a transition system: any number of threads on one processor, sharing semaphores,
  locks and condition variables.

  One step is what runs between two points where the processor can change hands: a thread keeps it until it
  sleeps or yields, and a timer interrupt can make it yield whenever interrupts come back on, which is after
  each operation. A thread put to sleep inside an operation finishes that operation when it runs again. */
module Kernel {
  import opened Options
  import opened Lists
  import opened Synch
  import opened WaitLists

  datatype Status = JustCreated | Running | Ready | Blocked

  /** Where a thread resumes: in its own code, in the loop of P or Acquire, after Wait's sleep, or never. */
  datatype Continuation = InUser | InP(s: nat) | InAcquire(l: nat) | InWait(c: nat, cl: nat) | Finished

  /** `holding` is the thread's own view: the locks it has acquired and not given back. */
  datatype Thread = Thread(name: string, priority: int, status: Status, cont: Continuation, holding: set<nat>)

  datatype State = State(threads: map<Tid, Thread>, ready: Queue, cpu: Option<Tid>,
                         sems: map<nat, SemValue>, locks: map<nat, LockValue>, conds: map<nat, Queue>)

  // ---- The scheduler ----

  /** Scheduler::ReadyToRun */
  function ReadyToRun(k: State, t: Tid): State {
    if t !in k.threads then k
    else k.(threads := k.threads[t := k.threads[t].(status := Ready)],
       ready := SortedInsertion(k.ready, t, k.threads[t].priority))
  }

  function WakeUp(k: State, woken: Option<Tid>): State {
    if woken.Some? then ReadyToRun(k, woken.value) else k
  }

  /** FindNextToRun and Run: the front of the ready list takes the processor, or the machine idles. */
  function Dispatch(k: State): State {
    if k.ready == [] || k.ready[0].item !in k.threads then k.(cpu := None)
    else
      var t := k.ready[0].item;
      k.(ready := k.ready[1..], cpu := Some(t), threads := k.threads[t := k.threads[t].(status := Running)])
  }

  // ---- Where a thread is ----

  datatype Location = OnCpu | OnReady | OnSem(s: nat) | OnLock(l: nat) | OnCond(c: nat) | Nowhere

  function PlaceOf(th: Thread): Location {
    match th.status
    case JustCreated => Nowhere
    case Running => OnCpu
    case Ready => OnReady
    case Blocked =>
      match th.cont
      case InP(s) => OnSem(s)
      case InAcquire(l) => OnLock(l)
      case InWait(c, _) => OnCond(c)
      case _ => Nowhere
  }

  function QueueAt(k: State, p: Location): Queue {
    match p
    case OnReady => k.ready
    case OnSem(s) => if s in k.sems then k.sems[s].queue else []
    case OnLock(l) => if l in k.locks then k.locks[l].queue else []
    case OnCond(c) => if c in k.conds then k.conds[c] else []
    case _ => []
  }

  predicate InQueue(q: Queue, t: Tid) {
    exists i :: 0 <= i < |q| && q[i].item == t
  }

  ghost predicate NobodyTwice(q: Queue) {
    forall i, j :: 0 <= i < j < |q| ==> q[i].item != q[j].item
  }

  ghost predicate QueueOk(q: Queue) {
    NobodyTwice(q) && Sorted(q)
  }

  predicate Is(k: State, t: Tid, p: Location) {
    t in k.threads && PlaceOf(k.threads[t]) == p
  }

  predicate Queues(p: Location) {
    p != OnCpu && p != Nowhere
  }

  /** Every queue holds, once each and in order, exactly the threads whose state says that they are there. */
  ghost predicate QueuesExact(k: State) {
    && (forall p :: QueueOk(QueueAt(k, p)))
    && (forall p, t :: Queues(p) ==> (InQueue(QueueAt(k, p), t) <==> Is(k, t, p)))
  }

  ghost predicate CpuExact(k: State) {
    && (forall t :: t in k.threads && k.threads[t].status == Running ==> k.cpu == Some(t))
    && (k.cpu.Some? ==> Is(k, k.cpu.value, OnCpu))
  }

  ghost predicate ContinuationOk(k: State, th: Thread) {
    && (th.status == JustCreated ==> th.cont == InUser)
    && (th.status == Blocked ==> th.cont != InUser)
    && (th.cont == Finished ==> th.status == Blocked)
    && (th.cont.InP? ==> th.cont.s in k.sems)
    && (th.cont.InAcquire? ==> th.cont.l in k.locks && th.cont.l !in th.holding)
    && (th.cont.InWait? ==> th.cont.c in k.conds && th.cont.cl in k.locks && th.cont.cl !in th.holding)
  }

  ghost predicate Placed(k: State) {
    && CpuExact(k)
    && QueuesExact(k)
    && (forall t :: t in k.threads ==> ContinuationOk(k, k.threads[t]))
  }

  lemma InsertionMembers(q: Queue, t: Tid, key: int)
    requires QueueOk(q) && !InQueue(q, t)
    ensures QueueOk(SortedInsertion(q, t, key))
    ensures forall u :: InQueue(SortedInsertion(q, t, key), u) <==> InQueue(q, u) || u == t
  {
    InsertionKeepsOrder(q, t, key);
    InsertionStaysSingle(q, t, key);
    forall u
      ensures InQueue(SortedInsertion(q, t, key), u) <==> InQueue(q, u) || u == t
    {
      InsertionMember(q, t, key, u);
    }
  }

  lemma InsertionStaysSingle(q: Queue, t: Tid, key: int)
    requires NobodyTwice(q) && !InQueue(q, t)
    ensures NobodyTwice(SortedInsertion(q, t, key))
  {
    InsertionIndex(q, t, key);
  }

  lemma InsertionMember(q: Queue, t: Tid, key: int, u: Tid)
    ensures InQueue(SortedInsertion(q, t, key), u) <==> InQueue(q, u) || u == t
  {
    InsertionIndex(q, t, key);
    var p, r := Place(q, key, 0), SortedInsertion(q, t, key);
    if u == t {
      assert r[p].item == u;
    } else if InQueue(q, u) {
      var i :| 0 <= i < |q| && q[i].item == u;
      assert r[if i < p then i else i + 1] == q[i];
    }
  }

  lemma RemovalMembers(q: Queue)
    requires QueueOk(q) && q != []
    ensures QueueOk(q[1..])
    ensures forall u :: InQueue(q[1..], u) <==> InQueue(q, u) && u != q[0].item
  {
    forall u | InQueue(q, u) && u != q[0].item
      ensures InQueue(q[1..], u)
    {
      var i :| 0 <= i < |q| && q[i].item == u;
      assert q[1..][i - 1].item == u;
    }
    forall u | InQueue(q[1..], u)
      ensures InQueue(q, u) && u != q[0].item
    {
      var i :| 0 <= i < |q[1..]| && q[1..][i].item == u;
      assert q[i + 1].item == u;
    }
  }

  /** A thread has the processor or is on a queue; on one queue only, and there once. */
  ghost predicate InOnePlace(k: State, t: Tid) {
    && (k.cpu == Some(t)) != (exists p :: Queues(p) && InQueue(QueueAt(k, p), t))
    && (forall p, p' :: Queues(p) && Queues(p') && InQueue(QueueAt(k, p), t) && InQueue(QueueAt(k, p'), t) ==> p == p')
    && (forall p, i, j :: 0 <= i < j < |QueueAt(k, p)| ==> !(QueueAt(k, p)[i].item == t && QueueAt(k, p)[j].item == t))
  }

  predicate Started(th: Thread) {
    th.status != JustCreated && th.cont != Finished
  }

  lemma ExactlyOnePlace(k: State, t: Tid)
    requires Placed(k) && t in k.threads && Started(k.threads[t])
    ensures InOnePlace(k, t)
  {
    var p := PlaceOf(k.threads[t]);
    if k.threads[t].status != Running {
      assert Queues(p) && Is(k, t, p);
      assert InQueue(QueueAt(k, p), t);
    }
  }

  // ---- Moving one thread ----

  predicate SameObjects(k: State, k': State) {
    k'.sems.Keys == k.sems.Keys && k'.locks.Keys == k.locks.Keys && k'.conds.Keys == k.conds.Keys
  }

  /** Thread `t` leaves `p` (a queue only from its front) for `p'`, and nothing else moves. */
  ghost predicate Moved(k: State, k': State, t: Tid, p: Location, p': Location) {
    && Is(k, t, p) && Is(k', t, p') && p != p'
    && k'.threads == k.threads[t := k'.threads[t]] && SameObjects(k, k')
    && ContinuationOk(k', k'.threads[t])
    && (Queues(p) ==> QueueAt(k, p) != [] && QueueAt(k, p)[0].item == t && QueueAt(k', p) == QueueAt(k, p)[1..])
    && (Queues(p') ==> QueueAt(k', p') == SortedInsertion(QueueAt(k, p'), t, k.threads[t].priority))
    && (forall q :: Queues(q) && q != p && q != p' ==> QueueAt(k', q) == QueueAt(k, q))
    && k'.cpu == (if p == OnCpu then None else if p' == OnCpu then Some(t) else k.cpu)
    && (p' == OnCpu ==> k.cpu == None)
  }

  lemma MoveKeepsPlaces(k: State, k': State, t: Tid, p: Location, p': Location)
    requires Placed(k) && Moved(k, k', t, p, p')
    ensures Placed(k')
  {
    if Queues(p) {
      RemovalMembers(QueueAt(k, p));
    }
    if Queues(p') {
      InsertionMembers(QueueAt(k, p'), t, k.threads[t].priority);
    }
    forall q
      ensures QueueOk(QueueAt(k', q))
      ensures Queues(q) ==> forall u :: InQueue(QueueAt(k', q), u) <==> Is(k', u, q)
    {
      assert QueueOk(QueueAt(k, q));
      forall u | Queues(q)
        ensures InQueue(QueueAt(k', q), u) <==> Is(k', u, q)
      {
        assert InQueue(QueueAt(k, q), u) <==> Is(k, u, q);
      }
    }
  }

  /** Changes that leave every thread where it is. */
  ghost predicate StayedPut(k: State, k': State) {
    && k'.threads.Keys == k.threads.Keys && k'.cpu == k.cpu && SameObjects(k, k')
    && (forall t :: t in k.threads ==>
            PlaceOf(k'.threads[t]) == PlaceOf(k.threads[t]) && ContinuationOk(k', k'.threads[t]))
    && (forall q :: Queues(q) ==> QueueAt(k', q) == QueueAt(k, q))
  }

  lemma StayingKeepsPlaces(k: State, k': State)
    requires Placed(k) && StayedPut(k, k')
    ensures Placed(k')
  {
    forall q
      ensures QueueOk(QueueAt(k', q))
    {
      assert QueueOk(QueueAt(k, q));
    }
    forall q, t | Queues(q)
      ensures InQueue(QueueAt(k', q), t) <==> Is(k', t, q)
    {
      assert InQueue(QueueAt(k, q), t) <==> Is(k, t, q);
    }
  }

  lemma FrontIsThere(k: State, p: Location)
    requires Placed(k) && Queues(p) && QueueAt(k, p) != []
    ensures Is(k, QueueAt(k, p)[0].item, p)
  {
    assert InQueue(QueueAt(k, p), QueueAt(k, p)[0].item);
  }

  lemma DispatchKeepsPlaces(k: State)
    requires Placed(k) && k.cpu == None
    ensures k.ready != [] ==> k.ready[0].item in k.threads
    ensures Placed(Dispatch(k))
  {
    if k.ready != [] {
      FrontIsThere(k, OnReady);
      MoveKeepsPlaces(k, Dispatch(k), k.ready[0].item, OnReady, OnCpu);
    }
  }

  // ---- What synchronization keeps ----

  /** The threads woken up, or just arrived, that have yet to look at the object again. */
  function Pending(k: State, cont: Continuation): set<Tid> {
    set t | t in k.threads && k.threads[t].cont == cont && k.threads[t].status in {Running, Ready}
  }

  ghost predicate SemOk(k: State, s: nat)
    requires s in k.sems
  {
    var v := k.sems[s];
    && 0 <= v.value == v.initial + v.vs - v.ps
    && (v.queue != [] ==> v.value <= |Pending(k, InP(s))|)
  }

  /** Semaphores count right, and no wakeup is lost: units left over are all spoken for by woken threads. */
  ghost predicate SemsOk(k: State) {
    forall s :: s in k.sems ==> SemOk(k, s)
  }

  /** No wakeup is lost on a lock: while it is free, a queue means that a woken thread is on its way. */
  ghost predicate LockOk(k: State, l: nat)
    requires l in k.locks
  {
    !k.locks[l].held && k.locks[l].queue != [] ==> Pending(k, InAcquire(l)) != {}
  }

  ghost predicate LocksOk(k: State) {
    forall l :: l in k.locks ==> LockOk(k, l)
  }

  /** The name of a finished thread no longer matters, unless it still holds a lock. */
  predicate NameMatters(th: Thread) {
    th.cont != Finished || th.holding != {}
  }

  /** What a thread believes to hold is what the lock says, by name. */
  ghost predicate HoldingExact(k: State) {
    forall t, l :: t in k.threads && NameMatters(k.threads[t]) ==>
      (l in k.threads[t].holding <==> l in k.locks && IsHeldBy(k.locks[l], k.threads[t].name))
  }

  predicate IsNameOf(k: State, t: Tid, name: string) {
    t in k.threads && k.threads[t].name == name && NameMatters(k.threads[t])
  }

  ghost predicate OwnersKnown(k: State) {
    forall l :: l in k.locks && k.locks[l].held ==> exists t :: IsNameOf(k, t, k.locks[l].owner)
  }

  predicate Namesakes(a: Thread, b: Thread) {
    a.name == b.name && NameMatters(a) && NameMatters(b)
  }

  ghost predicate NamesDistinct(k: State) {
    forall t, u :: t in k.threads && u in k.threads && Namesakes(k.threads[t], k.threads[u]) ==> t == u
  }

  /** At most one thread is between Acquire and Release of a lock. */
  ghost predicate Exclusive(k: State) {
    forall t, u, l :: t in k.threads && u in k.threads && l in k.threads[t].holding && l in k.threads[u].holding ==>
      t == u
  }

  ghost predicate OwnersOk(k: State) {
    HoldingExact(k) && OwnersKnown(k) && NamesDistinct(k)
  }

  ghost predicate Inv(k: State) {
    Placed(k) && SemsOk(k) && LocksOk(k) && OwnersOk(k)
  }

  lemma NamesMakeLocksExclusive(k: State)
    requires HoldingExact(k) && NamesDistinct(k)
    ensures Exclusive(k)
  {
    forall t, u, l | t in k.threads && u in k.threads && l in k.threads[t].holding && l in k.threads[u].holding
      ensures t == u
    {
      assert IsHeldBy(k.locks[l], k.threads[t].name) && IsHeldBy(k.locks[l], k.threads[u].name);
    }
  }

  // ---- Changing one thread ----

  /** Only thread `t` differs, and it keeps its name. */
  ghost predicate OneThread(k: State, k': State, t: Tid) {
    && t in k.threads && t in k'.threads
    && k'.threads == k.threads[t := k'.threads[t]]
    && k'.threads[t].name == k.threads[t].name
  }

  predicate Awaited(th: Thread, cont: Continuation) {
    th.cont == cont && th.status in {Running, Ready}
  }

  lemma PendingAfter(k: State, k': State, t: Tid, cont: Continuation)
    requires OneThread(k, k', t)
    ensures Pending(k', cont) == Pending(k, cont) - {t} + if Awaited(k'.threads[t], cont) then {t} else {}
    ensures t in Pending(k, cont) <==> Awaited(k.threads[t], cont)
  {
  }

  /** `t` does not stop being on its way to `cont`. */
  predicate StaysAwaited(k: State, k': State, t: Tid, cont: Continuation)
    requires t in k.threads && t in k'.threads
  {
    Awaited(k.threads[t], cont) ==> Awaited(k'.threads[t], cont)
  }

  lemma PendingGrows(k: State, k': State, t: Tid, cont: Continuation)
    requires OneThread(k, k', t) && StaysAwaited(k, k', t, cont)
    ensures Pending(k, cont) <= Pending(k', cont) && |Pending(k, cont)| <= |Pending(k', cont)|
  {
    PendingAfter(k, k', t, cont);
    var a, b := Pending(k, cont), Pending(k', cont);
    assert b == a + (b - a);
  }

  ghost predicate SemsOkBut(k: State, s: nat) {
    forall x :: x in k.sems && x != s ==> SemOk(k, x)
  }

  ghost predicate LocksOkBut(k: State, l: nat) {
    forall x :: x in k.locks && x != l ==> LockOk(k, x)
  }

  /** Semaphore `s` is accounted for separately; the others are as they were. */
  lemma OtherSems(k: State, k': State, t: Tid, s: nat)
    requires SemsOkBut(k, s) && OneThread(k, k', t)
    requires s in k.sems && s in k'.sems && k'.sems == k.sems[s := k'.sems[s]] && SemOk(k', s)
    requires forall x :: x != s ==> StaysAwaited(k, k', t, InP(x))
    ensures SemsOk(k')
  {
    forall x | x in k'.sems
      ensures SemOk(k', x)
    {
      if x != s {
        assert SemOk(k, x);
        PendingGrows(k, k', t, InP(x));
      }
    }
  }

  lemma SameSems(k: State, k': State, t: Tid)
    requires SemsOk(k) && OneThread(k, k', t) && k'.sems == k.sems
    requires forall x :: StaysAwaited(k, k', t, InP(x))
    ensures SemsOk(k')
  {
    forall x | x in k'.sems
      ensures SemOk(k', x)
    {
      assert SemOk(k, x);
      PendingGrows(k, k', t, InP(x));
    }
  }

  lemma OtherLocks(k: State, k': State, t: Tid, l: nat)
    requires LocksOkBut(k, l) && OneThread(k, k', t)
    requires l in k.locks && l in k'.locks && k'.locks == k.locks[l := k'.locks[l]]
    requires forall x :: x != l ==> StaysAwaited(k, k', t, InAcquire(x))
    ensures LocksOkBut(k', l)
    ensures LockOk(k', l) ==> LocksOk(k')
  {
    forall x | x in k'.locks
      ensures x != l ==> LockOk(k', x)
    {
      if x != l {
        assert LockOk(k, x);
        PendingGrows(k, k', t, InAcquire(x));
      }
    }
  }

  lemma SameLocks(k: State, k': State, t: Tid)
    requires LocksOk(k) && OneThread(k, k', t) && k'.locks == k.locks
    requires forall x :: StaysAwaited(k, k', t, InAcquire(x))
    ensures LocksOk(k')
  {
    forall x | x in k'.locks
      ensures LockOk(k', x)
    {
      assert LockOk(k, x);
      PendingGrows(k, k', t, InAcquire(x));
    }
  }

  lemma SameOwners(k: State, k': State, t: Tid)
    requires OwnersOk(k) && OneThread(k, k', t) && k'.threads[t].holding == k.threads[t].holding
    requires k'.locks.Keys == k.locks.Keys && (NameMatters(k'.threads[t]) ==> NameMatters(k.threads[t]))
    requires forall l :: l in k.locks ==> k'.locks[l].held == k.locks[l].held && k'.locks[l].owner == k.locks[l].owner
    ensures OwnersOk(k')
  {
    forall l | l in k'.locks && k'.locks[l].held
      ensures exists u :: IsNameOf(k', u, k'.locks[l].owner)
    {
      var u :| IsNameOf(k, u, k.locks[l].owner);
      assert l in k.threads[u].holding;
      assert IsNameOf(k', u, k'.locks[l].owner);
    }
  }

  lemma SameRest(k: State, k': State, t: Tid)
    requires SemsOk(k) && LocksOk(k) && OwnersOk(k)
    requires OneThread(k, k', t) && k'.sems == k.sems && k'.locks == k.locks
    requires k'.threads[t].holding == k.threads[t].holding && (NameMatters(k'.threads[t]) ==> NameMatters(k.threads[t]))
    requires forall x :: StaysAwaited(k, k', t, InP(x)) && StaysAwaited(k, k', t, InAcquire(x))
    ensures SemsOk(k') && LocksOk(k') && OwnersOk(k')
  {
    SameSems(k, k', t);
    SameLocks(k, k', t);
    SameOwners(k, k', t);
  }

  // ---- The steps ----

  predicate Runs(k: State) {
    k.cpu.Some? && k.cpu.value in k.threads
  }

  function Me(k: State): Thread
    requires Runs(k)
  {
    k.threads[k.cpu.value]
  }

  function WithMe(k: State, th: Thread): State
    requires Runs(k)
  {
    k.(threads := k.threads[k.cpu.value := th])
  }

  /** The part of Sleep before another thread is chosen. */
  function Suspended(k: State, cont: Continuation): State
    requires Runs(k)
  {
    WithMe(k, Me(k).(status := Blocked, cont := cont)).(cpu := None)
  }

  function PTurn(k: State, s: nat): State
    requires Runs(k) && s in k.sems
  {
    var (sem, done) := PPass(k.sems[s], k.cpu.value, Me(k).priority);
    var k1 := k.(sems := k.sems[s := sem]);
    if done then WithMe(k1, Me(k).(cont := InUser)) else Suspended(k1, InP(s))
  }

  /** One turn of the loop in Semaphore::P; a thread that sleeps hands over the processor. */
  function StepP(k: State, s: nat): State
    requires Runs(k) && s in k.sems
  {
    if k.sems[s].value == 0 then Dispatch(PTurn(k, s)) else PTurn(k, s)
  }

  /** Semaphore::V, by a thread or by an interrupt handler. */
  function StepV(k: State, s: nat): State
    requires s in k.sems
  {
    var (sem, woken) := VStep(k.sems[s]);
    WakeUp(k.(sems := k.sems[s := sem]), woken)
  }

  /** Acquire returns to the running thread, which takes itself to hold the lock. */
  function Entered(k: State, l: nat): State
    requires Runs(k)
  {
    WithMe(k, Me(k).(cont := InUser, holding := Me(k).holding + {l}))
  }

  function AcquireTurn(k: State, l: nat): State
    requires Runs(k) && l in k.locks
  {
    var (lock, done) := AcquirePass(k.locks[l], k.cpu.value, Me(k).name, Me(k).priority);
    var k1 := k.(locks := k.locks[l := lock]);
    if done then Entered(k1, l) else Suspended(k1, InAcquire(l))
  }

  /** One turn of the loop in Lock::Acquire. */
  function StepAcquireTurn(k: State, l: nat): State
    requires Runs(k) && l in k.locks
  {
    if k.locks[l].held then Dispatch(AcquireTurn(k, l)) else AcquireTurn(k, l)
  }

  /** Lock::Acquire from the start: it returns at once if the lock is held under the caller's name. */
  function StepAcquire(k: State, l: nat): State
    requires Runs(k) && l in k.locks
  {
    if IsHeldBy(k.locks[l], Me(k).name) then Entered(k, l) else StepAcquireTurn(k, l)
  }

  /** The lock is free again; its waiters are still queued. */
  function Freed(k: State, l: nat): State
    requires Runs(k) && l in k.locks
  {
    WithMe(k, Me(k).(holding := Me(k).holding - {l})).(locks := k.locks[l := k.locks[l].(held := false)])
  }

  /** Lock::Release: the lock becomes free and its first waiter ready. */
  function StepRelease(k: State, l: nat): State
    requires Runs(k) && l in k.locks
  {
    var (lock, woken) := ReleaseStep(k.locks[l]);
    WakeUp(Freed(k, l).(locks := k.locks[l := lock]), woken)
  }

  /** The end of Condition::Wait's first half: on the wait list and asleep. */
  function Enlisted(k: State, c: nat, l: nat): State
    requires Runs(k) && c in k.conds
  {
    Suspended(k.(conds := k.conds[c := SortedInsertion(k.conds[c], k.cpu.value, Me(k).priority)]), InWait(c, l))
  }

  /** Condition::Wait up to its sleep, with interrupts off throughout: on the wait list, lock released, asleep. */
  function StepWait(k: State, c: nat, l: nat): State
    requires Runs(k) && c in k.conds && l in k.locks
  {
    var k1 := StepRelease(k, l);
    if Runs(k1) && c in k1.conds then Dispatch(Enlisted(k1, c, l)) else k1
  }

  function StepSignal(k: State, c: nat): State
    requires c in k.conds
  {
    if k.conds[c] == [] then k
    else ReadyToRun(k.(conds := k.conds[c := k.conds[c][1..]]), k.conds[c][0].item)
  }

  /** Condition::Broadcast: signal until nobody waits. */
  function StepBroadcast(k: State, c: nat): State
    requires c in k.conds
    decreases |k.conds[c]|
  {
    if k.conds[c] == [] then k else StepBroadcast(StepSignal(k, c), c)
  }

  /** Thread::Yield: the next thread is taken off the ready list before the caller joins it. */
  function StepYield(k: State): State
    requires Runs(k)
  {
    if k.ready == [] then k
    else ReadyToRun(Dispatch(SteppedAside(k)), k.cpu.value)
  }

  function Created(k: State, t: Tid, name: string, priority: int): State {
    k.(threads := k.threads[t := Thread(name, priority, JustCreated, InUser, {})])
  }

  function StepFork(k: State, t: Tid): State {
    ReadyToRun(k, t)
  }

  function StepFinish(k: State): State
    requires Runs(k)
  {
    Dispatch(Suspended(k, Finished))
  }

  function StepSetPriority(k: State, t: Tid, newPriority: int): State
    requires t in k.threads
  {
    k.(threads := k.threads[t := k.threads[t].(priority := -newPriority)])
  }

  /** A thread that slept inside an operation goes on where it stopped. */
  function StepResume(k: State): State
    requires Runs(k) && ContinuationOk(k, Me(k))
  {
    match Me(k).cont
    case InP(s) => StepP(k, s)
    case InAcquire(l) => StepAcquireTurn(k, l)
    case InWait(_, l) => StepAcquire(k, l)
    case _ => k
  }

  // ---- Every step keeps the invariant ----

  lemma DispatchKeepsInv(k: State)
    requires Inv(k) && k.cpu == None
    ensures Inv(Dispatch(k))
  {
    DispatchKeepsPlaces(k);
    if k.ready != [] {
      FrontIsThere(k, OnReady);
      var t := k.ready[0].item;
      SameRest(k, Dispatch(k), t);
    }
  }

  lemma PBlocks(k: State, s: nat)
    requires Runs(k) && Me(k).status == Running && s in k.sems && k.sems[s].value == 0
    ensures Moved(k, PTurn(k, s), k.cpu.value, OnCpu, OnSem(s))
  {}

  lemma PTurnPlaces(k: State, s: nat)
    requires Placed(k) && Runs(k) && s in k.sems
    ensures Me(k).status == Running
    ensures Placed(PTurn(k, s))
  {
    if k.sems[s].value == 0 {
      PBlocks(k, s);
      MoveKeepsPlaces(k, PTurn(k, s), k.cpu.value, OnCpu, OnSem(s));
    } else {
      StayingKeepsPlaces(k, PTurn(k, s));
    }
  }

  lemma PTurnCounts(k: State, s: nat)
    requires Runs(k) && s in k.sems && SemOk(k, s) && Me(k).cont in {InUser, InP(s)} && Me(k).status == Running
    ensures SemOk(PTurn(k, s), s)
  {
    PendingAfter(k, PTurn(k, s), k.cpu.value, InP(s));
  }

  lemma PTurnSems(k: State, s: nat)
    requires SemsOk(k) && Runs(k) && s in k.sems && Me(k).cont in {InUser, InP(s)} && Me(k).status == Running
    ensures SemsOk(PTurn(k, s))
  {
    PTurnCounts(k, s);
    OtherSems(k, PTurn(k, s), k.cpu.value, s);
  }

  lemma PKeepsInv(k: State, s: nat)
    requires Inv(k) && Runs(k) && s in k.sems && Me(k).cont in {InUser, InP(s)}
    ensures Inv(StepP(k, s))
  {
    PTurnPlaces(k, s);
    PTurnSems(k, s);
    SameLocks(k, PTurn(k, s), k.cpu.value);
    SameOwners(k, PTurn(k, s), k.cpu.value);
    if k.sems[s].value == 0 {
      DispatchKeepsInv(PTurn(k, s));
    }
  }

  lemma VMoves(k: State, s: nat, u: Tid)
    requires s in k.sems && k.sems[s].queue != [] && k.sems[s].queue[0].item == u && Is(k, u, OnSem(s))
    requires ContinuationOk(k, k.threads[u])
    ensures Moved(k, StepV(k, s), u, OnSem(s), OnReady)
  {}

  lemma VPlaces(k: State, s: nat)
    requires Placed(k) && s in k.sems
    ensures Placed(StepV(k, s))
    ensures var q := k.sems[s].queue;
            q != [] ==>
              q[0].item in k.threads && k.threads[q[0].item].cont == InP(s) && k.threads[q[0].item].status == Blocked
  {
    var q := k.sems[s].queue;
    if q == [] {
      StayingKeepsPlaces(k, StepV(k, s));
    } else {
      FrontIsThere(k, OnSem(s));
      VMoves(k, s, q[0].item);
      MoveKeepsPlaces(k, StepV(k, s), q[0].item, OnSem(s), OnReady);
    }
  }

  lemma VSems(k: State, s: nat, t: Tid)
    requires SemsOk(k) && s in k.sems && t in k.threads
    requires var q := k.sems[s].queue;
             q != [] ==> t == q[0].item && k.threads[t].cont == InP(s) && k.threads[t].status == Blocked
    ensures SemsOk(StepV(k, s))
  {
    var k' := StepV(k, s);
    assert SemOk(k, s);
    PendingAfter(k, k', t, InP(s));
    OtherSems(k, k', t, s);
  }

  lemma VWakesNobody(k: State, s: nat)
    requires SemsOk(k) && LocksOk(k) && OwnersOk(k) && s in k.sems && k.sems[s].queue == []
    ensures var k' := StepV(k, s); SemsOk(k') && LocksOk(k') && OwnersOk(k')
  {
    var k' := StepV(k, s);
    forall x | x in k'.sems
      ensures SemOk(k', x)
    {
      assert SemOk(k, x) && Pending(k', InP(x)) == Pending(k, InP(x));
    }
    forall x | x in k'.locks
      ensures LockOk(k', x)
    {
      assert LockOk(k, x) && Pending(k', InAcquire(x)) == Pending(k, InAcquire(x));
    }
    forall l | l in k'.locks && k'.locks[l].held
      ensures exists u :: IsNameOf(k', u, k'.locks[l].owner)
    {
      var u :| IsNameOf(k, u, k.locks[l].owner);
      assert IsNameOf(k', u, k'.locks[l].owner);
    }
  }

  lemma VKeepsInv(k: State, s: nat)
    requires Inv(k) && s in k.sems
    ensures Inv(StepV(k, s))
  {
    VPlaces(k, s);
    var q, k' := k.sems[s].queue, StepV(k, s);
    if q == [] {
      VWakesNobody(k, s);
    } else {
      VSems(k, s, q[0].item);
      SameLocks(k, k', q[0].item);
      SameOwners(k, k', q[0].item);
    }
  }

  lemma EnteredOwners(k: State, k': State, l: nat)
    requires OwnersOk(k) && Runs(k) && l in k.locks && OneThread(k, k', k.cpu.value) && Me(k).cont != Finished
    requires k'.threads[k.cpu.value].holding == Me(k).holding + {l}
    requires !k.locks[l].held || IsHeldBy(k.locks[l], Me(k).name)
    requires k'.locks == k.locks[l := k.locks[l].(held := true, owner := Me(k).name)]
    ensures OwnersOk(k')
  {
    forall x | x in k'.locks && k'.locks[x].held
      ensures exists u :: IsNameOf(k', u, k'.locks[x].owner)
    {
      if x == l {
        assert IsNameOf(k', k.cpu.value, k'.locks[x].owner);
      } else {
        var u :| IsNameOf(k, u, k.locks[x].owner);
        assert IsNameOf(k', u, k'.locks[x].owner);
      }
    }
  }

  lemma AcquireBlocks(k: State, l: nat)
    requires Runs(k) && Me(k).status == Running && l in k.locks && k.locks[l].held && l !in Me(k).holding
    ensures Moved(k, AcquireTurn(k, l), k.cpu.value, OnCpu, OnLock(l))
  {}

  lemma AcquireTurnPlaces(k: State, l: nat)
    requires Placed(k) && Runs(k) && l in k.locks && l !in Me(k).holding
    ensures Me(k).status == Running
    ensures Placed(AcquireTurn(k, l))
  {
    if k.locks[l].held {
      AcquireBlocks(k, l);
      MoveKeepsPlaces(k, AcquireTurn(k, l), k.cpu.value, OnCpu, OnLock(l));
    } else {
      StayingKeepsPlaces(k, AcquireTurn(k, l));
    }
  }

  predicate MayAcquire(cont: Continuation, l: nat) {
    cont == InUser || cont == InAcquire(l) || (cont.InWait? && cont.cl == l)
  }

  lemma AcquireTurnKeepsInv(k: State, l: nat)
    requires Inv(k) && Runs(k) && l in k.locks && MayAcquire(Me(k).cont, l) && l !in Me(k).holding
    ensures Inv(StepAcquireTurn(k, l))
  {
    var t, k' := k.cpu.value, AcquireTurn(k, l);
    AcquireTurnPlaces(k, l);
    SameSems(k, k', t);
    OtherLocks(k, k', t, l);
    if k.locks[l].held {
      SameOwners(k, k', t);
      DispatchKeepsInv(k');
    } else {
      EnteredOwners(k, k', l);
    }
  }

  lemma EnteredPlaces(k: State, l: nat)
    requires Placed(k) && Runs(k)
    ensures Placed(Entered(k, l))
  {
    StayingKeepsPlaces(k, Entered(k, l));
  }

  lemma EnteredRest(k: State, l: nat)
    requires SemsOk(k) && LocksOk(k) && OwnersOk(k)
    requires Runs(k) && l in k.locks && MayAcquire(Me(k).cont, l)
    requires k.locks[l].held && Me(k).holding + {l} == Me(k).holding
    ensures var k' := Entered(k, l); SemsOk(k') && LocksOk(k') && OwnersOk(k')
  {
    var t, k' := k.cpu.value, Entered(k, l);
    SameSems(k, k', t);
    OtherLocks(k, k', t, l);
    SameOwners(k, k', t);
  }

  lemma AcquireKeepsInv(k: State, l: nat)
    requires Inv(k) && Runs(k) && l in k.locks && MayAcquire(Me(k).cont, l)
    ensures Inv(StepAcquire(k, l))
  {
    if IsHeldBy(k.locks[l], Me(k).name) {
      assert l in Me(k).holding && Me(k).holding + {l} == Me(k).holding;
      EnteredPlaces(k, l);
      EnteredRest(k, l);
    } else {
      AcquireTurnKeepsInv(k, l);
    }
  }

  lemma FreedOwners(k: State, l: nat)
    requires OwnersOk(k) && Runs(k) && l in k.locks && l in Me(k).holding
    ensures OwnersOk(Freed(k, l))
  {
    var k' := Freed(k, l);
    forall x | x in k'.locks && k'.locks[x].held
      ensures exists u :: IsNameOf(k', u, k'.locks[x].owner)
    {
      var u :| IsNameOf(k, u, k.locks[x].owner);
      assert x in k.threads[u].holding && x in k'.threads[u].holding;
      assert IsNameOf(k', u, k'.locks[x].owner);
    }
  }

  lemma FreedPlaces(k: State, l: nat)
    requires Placed(k) && Runs(k) && l in k.locks
    ensures Placed(Freed(k, l))
  {
    StayingKeepsPlaces(k, Freed(k, l));
  }

  lemma FreedKeeps(k: State, l: nat)
    requires Inv(k) && Runs(k) && l in k.locks && l in Me(k).holding
    ensures var k' := Freed(k, l); Placed(k') && SemsOk(k') && LocksOkBut(k', l) && OwnersOk(k')
  {
    var t, k' := k.cpu.value, Freed(k, l);
    FreedPlaces(k, l);
    SameSems(k, k', t);
    OtherLocks(k, k', t, l);
    FreedOwners(k, l);
  }

  lemma ReleaseEffect(k: State, l: nat)
    requires Placed(k) && Runs(k) && l in k.locks
    ensures var k' := StepRelease(k, l);
            Runs(k') && k'.cpu == k.cpu && SameObjects(k, k') && Me(k').cont == Me(k).cont
            && Me(k').holding == Me(k).holding - {l} && !k'.locks[l].held
  {
    if k.locks[l].queue != [] {
      FrontIsThere(k, OnLock(l));
    }
  }

  lemma ReleaseKeepsInv(k: State, l: nat)
    requires Inv(k) && Runs(k) && l in k.locks && l in Me(k).holding
    ensures Inv(StepRelease(k, l))
  {
    FreedKeeps(k, l);
    if k.locks[l].queue == [] {
      assert StepRelease(k, l) == Freed(k, l) && LockOk(Freed(k, l), l);
    } else {
      FrontIsThere(Freed(k, l), OnLock(l));
      WokenFromLock(Freed(k, l), StepRelease(k, l), l, k.locks[l].queue[0].item);
    }
  }

  lemma WakingMoves(k: State, k': State, l: nat, u: Tid)
    requires l in k.locks && k.locks[l].queue != [] && k.locks[l].queue[0].item == u && Is(k, u, OnLock(l))
    requires ContinuationOk(k, k.threads[u])
    requires k' == ReadyToRun(k.(locks := k.locks[l := k.locks[l].(queue := k.locks[l].queue[1..])]), u)
    ensures Moved(k, k', u, OnLock(l), OnReady)
  {}

  lemma WokenFromLock(k: State, k': State, l: nat, u: Tid)
    requires Placed(k) && SemsOk(k) && LocksOkBut(k, l) && OwnersOk(k)
    requires l in k.locks && k.locks[l].queue != [] && k.locks[l].queue[0].item == u && Is(k, u, OnLock(l))
    requires k' == ReadyToRun(k.(locks := k.locks[l := k.locks[l].(queue := k.locks[l].queue[1..])]), u)
    ensures Inv(k')
  {
    WakingMoves(k, k', l, u);
    MoveKeepsPlaces(k, k', u, OnLock(l), OnReady);
    SameSems(k, k', u);
    OtherLocks(k, k', u, l);
    SameOwners(k, k', u);
    assert u in Pending(k', InAcquire(l));
  }

  lemma WaitKeepsInv(k: State, c: nat, l: nat)
    requires Inv(k) && Runs(k) && c in k.conds && l in k.locks && l in Me(k).holding && Me(k).cont == InUser
    ensures Inv(StepWait(k, c, l))
  {
    ReleaseKeepsInv(k, l);
    ReleaseEffect(k, l);
    var k1 := StepRelease(k, l);
    EnlistedKeepsInv(k1, c, l);
    DispatchKeepsInv(Enlisted(k1, c, l));
  }

  lemma EnlistedPlaces(k: State, c: nat, l: nat)
    requires Placed(k) && Runs(k) && c in k.conds && l in k.locks && l !in Me(k).holding
    ensures Placed(Enlisted(k, c, l))
  {
    MoveKeepsPlaces(k, Enlisted(k, c, l), k.cpu.value, OnCpu, OnCond(c));
  }

  lemma EnlistedKeepsInv(k: State, c: nat, l: nat)
    requires Inv(k) && Runs(k) && c in k.conds && l in k.locks && Me(k).cont == InUser && l !in Me(k).holding
    ensures Inv(Enlisted(k, c, l))
  {
    var t, k' := k.cpu.value, Enlisted(k, c, l);
    EnlistedPlaces(k, c, l);
    SameRest(k, k', t);
  }

  lemma SignalMoves(k: State, c: nat, u: Tid)
    requires c in k.conds && k.conds[c] != [] && k.conds[c][0].item == u && Is(k, u, OnCond(c))
    requires ContinuationOk(k, k.threads[u])
    ensures Moved(k, StepSignal(k, c), u, OnCond(c), OnReady)
  {}

  lemma SignalPlaces(k: State, c: nat)
    requires Placed(k) && c in k.conds && k.conds[c] != []
    ensures Placed(StepSignal(k, c)) && Is(k, k.conds[c][0].item, OnCond(c))
  {
    FrontIsThere(k, OnCond(c));
    SignalMoves(k, c, k.conds[c][0].item);
    MoveKeepsPlaces(k, StepSignal(k, c), k.conds[c][0].item, OnCond(c), OnReady);
  }

  lemma SignalKeepsInv(k: State, c: nat)
    requires Inv(k) && c in k.conds
    ensures Inv(StepSignal(k, c))
    ensures c in StepSignal(k, c).conds && (k.conds[c] != [] ==> StepSignal(k, c).conds[c] == k.conds[c][1..])
  {
    if k.conds[c] != [] {
      var u, k' := k.conds[c][0].item, StepSignal(k, c);
      SignalPlaces(k, c);
      SameRest(k, k', u);
    }
  }

  lemma {:induction false} BroadcastKeepsInv(k: State, c: nat)
    requires Inv(k) && c in k.conds
    ensures Inv(StepBroadcast(k, c))
    ensures c in StepBroadcast(k, c).conds && StepBroadcast(k, c).conds[c] == []
    decreases |k.conds[c]|
  {
    if k.conds[c] != [] {
      SignalKeepsInv(k, c);
      BroadcastKeepsInv(StepSignal(k, c), c);
    }
  }

  /** The caller of Yield between giving the processor up and joining the ready list. */
  function SteppedAside(k: State): State
    requires Runs(k)
  {
    WithMe(k, Me(k).(status := JustCreated)).(cpu := None)
  }

  lemma SteppedAsidePlaces(k: State)
    requires Placed(k) && Runs(k) && Me(k).cont == InUser
    ensures Placed(SteppedAside(k))
  {
    MoveKeepsPlaces(k, SteppedAside(k), k.cpu.value, OnCpu, Nowhere);
  }

  lemma SteppedAsideKeepsInv(k: State)
    requires Inv(k) && Runs(k) && Me(k).cont == InUser
    ensures Inv(SteppedAside(k))
  {
    SteppedAsidePlaces(k);
    SameRest(k, SteppedAside(k), k.cpu.value);
  }

  lemma YieldKeepsInv(k: State)
    requires Inv(k) && Runs(k) && Me(k).cont == InUser
    ensures Inv(StepYield(k))
  {
    SteppedAsideKeepsInv(k);
    if k.ready != [] {
      FrontIsThere(k, OnReady);
      DispatchKeepsInv(SteppedAside(k));
      ForkKeepsInv(Dispatch(SteppedAside(k)), k.cpu.value);
    }
  }

  lemma ForkPlaces(k: State, t: Tid)
    requires Placed(k) && t in k.threads && k.threads[t].status == JustCreated
    ensures Placed(StepFork(k, t))
  {
    MoveKeepsPlaces(k, StepFork(k, t), t, Nowhere, OnReady);
  }

  lemma ForkKeepsInv(k: State, t: Tid)
    requires Inv(k) && t in k.threads && k.threads[t].status == JustCreated
    ensures Inv(StepFork(k, t))
  {
    var k' := StepFork(k, t);
    ForkPlaces(k, t);
    SameRest(k, k', t);
  }

  lemma FinishPlaces(k: State)
    requires Placed(k) && Runs(k)
    ensures Placed(Suspended(k, Finished))
  {
    MoveKeepsPlaces(k, Suspended(k, Finished), k.cpu.value, OnCpu, Nowhere);
  }

  lemma FinishKeepsInv(k: State)
    requires Inv(k) && Runs(k) && Me(k).cont == InUser
    ensures Inv(StepFinish(k))
  {
    var t, k' := k.cpu.value, Suspended(k, Finished);
    FinishPlaces(k);
    SameRest(k, k', t);
    DispatchKeepsInv(k');
  }

  lemma SetPriorityPlaces(k: State, t: Tid, newPriority: int)
    requires Placed(k) && t in k.threads
    ensures Placed(StepSetPriority(k, t, newPriority))
  {
    StayingKeepsPlaces(k, StepSetPriority(k, t, newPriority));
  }

  lemma SetPriorityKeepsInv(k: State, t: Tid, newPriority: int)
    requires Inv(k) && t in k.threads
    ensures Inv(StepSetPriority(k, t, newPriority))
  {
    var k' := StepSetPriority(k, t, newPriority);
    SetPriorityPlaces(k, t, newPriority);
    SameRest(k, k', t);
  }

  lemma ResumeKeepsInv(k: State)
    requires Inv(k) && Runs(k)
    ensures Me(k).cont != Finished
    ensures Inv(StepResume(k))
  {
    assert Is(k, k.cpu.value, OnCpu);
    match Me(k).cont
    case InP(s) => PKeepsInv(k, s);
    case InAcquire(l) => AcquireTurnKeepsInv(k, l);
    case InWait(_, l) => AcquireKeepsInv(k, l);
    case _ =>
  }

  // A new thread with a name of its own

  ghost predicate NameFree(k: State, name: string) {
    forall u :: !IsNameOf(k, u, name)
  }

  lemma CreatedPlaces(k: State, t: Tid, name: string, priority: int)
    requires Placed(k) && t !in k.threads
    ensures Placed(Created(k, t, name, priority))
  {
    var k' := Created(k, t, name, priority);
    assert forall p :: QueueAt(k', p) == QueueAt(k, p);
    forall p, u | Queues(p)
      ensures InQueue(QueueAt(k', p), u) <==> Is(k', u, p)
    {
      assert InQueue(QueueAt(k, p), u) <==> Is(k, u, p);
    }
  }

  lemma CreateKeepsInv(k: State, t: Tid, name: string, priority: int)
    requires Inv(k) && t !in k.threads && NameFree(k, name)
    ensures Inv(Created(k, t, name, priority))
  {
    var k' := Created(k, t, name, priority);
    CreatedPlaces(k, t, name, priority);
    forall x | x in k'.sems
      ensures SemOk(k', x)
    {
      assert SemOk(k, x) && Pending(k', InP(x)) == Pending(k, InP(x));
    }
    forall x | x in k'.locks
      ensures LockOk(k', x)
    {
      assert LockOk(k, x) && Pending(k', InAcquire(x)) == Pending(k, InAcquire(x));
    }
    CreatedOwners(k, t, name, priority);
  }

  lemma CreatedOwners(k: State, t: Tid, name: string, priority: int)
    requires OwnersOk(k) && t !in k.threads && NameFree(k, name)
    ensures OwnersOk(Created(k, t, name, priority))
  {
    var k' := Created(k, t, name, priority);
    forall l | l in k'.locks && k'.locks[l].held
      ensures k'.locks[l].owner != name
      ensures exists u :: IsNameOf(k', u, k'.locks[l].owner)
    {
      var u :| IsNameOf(k, u, k.locks[l].owner);
      assert IsNameOf(k', u, k'.locks[l].owner);
    }
    forall u, w | u in k'.threads && w in k'.threads && Namesakes(k'.threads[u], k'.threads[w])
      ensures u == w
    {
      assert !IsNameOf(k, u, name) && !IsNameOf(k, w, name);
    }
  }

  // ---- Runs ----

  datatype Action =
    | DoP(s: nat) | DoV(s: nat) | DoAcquire(l: nat) | DoRelease(l: nat)
    | DoWait(c: nat, cl: nat) | DoSignal(c: nat, cl: nat) | DoBroadcast(c: nat, cl: nat)
    | DoYield | DoFinish | DoResume
    | DoCreate(t: Tid, name: string, priority: int) | DoFork(t: Tid) | DoSetPriority(t: Tid, newPriority: int)
    | InterruptV(s: nat) | EndIdle

  /** The running thread is in its own code, and not half way through an operation. */
  predicate Free(k: State) {
    Runs(k) && Me(k).cont == InUser
  }

  predicate Holds(k: State, l: nat) {
    Free(k) && l in k.locks && l in Me(k).holding
  }

  /** When an action is possible, with the source's assertions as the callers' duties: Release, Wait, Signal
    and Broadcast want the lock held. A timer interrupt is a DoYield, a device interrupt an InterruptV. */
  ghost predicate Enabled(k: State, a: Action) {
    match a
    case DoP(s) => Free(k) && s in k.sems
    case DoV(s) => Free(k) && s in k.sems
    case DoAcquire(l) => Free(k) && l in k.locks
    case DoRelease(l) => Holds(k, l)
    case DoWait(c, l) => Holds(k, l) && c in k.conds
    case DoSignal(c, l) => Holds(k, l) && c in k.conds
    case DoBroadcast(c, l) => Holds(k, l) && c in k.conds
    case DoYield => Free(k)
    case DoFinish => Free(k)
    case DoResume => Runs(k) && ContinuationOk(k, Me(k)) && !Free(k)
    case DoCreate(t, name, _) => Free(k) && t !in k.threads && NameFree(k, name)
    case DoFork(t) => Free(k) && t in k.threads && k.threads[t].status == JustCreated
    case DoSetPriority(t, _) => Free(k) && t in k.threads
    case InterruptV(s) => s in k.sems
    case EndIdle => k.cpu == None
  }

  ghost function Next(k: State, a: Action): State
    requires Enabled(k, a)
  {
    match a
    case DoP(s) => StepP(k, s)
    case DoV(s) => StepV(k, s)
    case DoAcquire(l) => StepAcquire(k, l)
    case DoRelease(l) => StepRelease(k, l)
    case DoWait(c, l) => StepWait(k, c, l)
    case DoSignal(c, _) => StepSignal(k, c)
    case DoBroadcast(c, _) => StepBroadcast(k, c)
    case DoYield => StepYield(k)
    case DoFinish => StepFinish(k)
    case DoResume => StepResume(k)
    case DoCreate(t, name, priority) => Created(k, t, name, priority)
    case DoFork(t) => StepFork(k, t)
    case DoSetPriority(t, newPriority) => StepSetPriority(k, t, newPriority)
    case InterruptV(s) => StepV(k, s)
    case EndIdle => Dispatch(k)
  }

  lemma NextKeepsInv(k: State, a: Action)
    requires Inv(k) && Enabled(k, a)
    ensures Inv(Next(k, a))
  {
    match a
    case DoP(s) => PKeepsInv(k, s);
    case DoV(s) => VKeepsInv(k, s);
    case DoAcquire(l) => AcquireKeepsInv(k, l);
    case DoRelease(l) => ReleaseKeepsInv(k, l);
    case DoWait(c, l) => WaitKeepsInv(k, c, l);
    case DoSignal(c, _) => SignalKeepsInv(k, c);
    case DoBroadcast(c, _) => BroadcastKeepsInv(k, c);
    case DoYield => YieldKeepsInv(k);
    case DoFinish => FinishKeepsInv(k);
    case DoResume => ResumeKeepsInv(k);
    case DoCreate(t, name, priority) => CreateKeepsInv(k, t, name, priority);
    case DoFork(t) => ForkKeepsInv(k, t);
    case DoSetPriority(t, newPriority) => SetPriorityKeepsInv(k, t, newPriority);
    case InterruptV(s) => VKeepsInv(k, s);
    case EndIdle => DispatchKeepsInv(k);
  }

  /** The machine as it starts: one thread running, everything else new. */
  ghost predicate Start(k: State) {
    && (exists t, name, priority ::
            k.threads == map[t := Thread(name, priority, Running, InUser, {})] && k.cpu == Some(t))
    && k.ready == []
    && (forall s :: s in k.sems ==> k.sems[s] == SemValue(k.sems[s].initial, [], k.sems[s].initial, 0, 0))
    && (forall l :: l in k.locks ==> !k.locks[l].held && k.locks[l].queue == [])
    && (forall c :: c in k.conds ==> k.conds[c] == [])
  }

  lemma StartHasInv(k: State)
    requires Start(k)
    ensures Inv(k)
  {
    forall p
      ensures QueueAt(k, p) == []
    {
    }
  }

  /** `k'` is reached from `k` by the actions of `run`, one after another. */
  ghost predicate Reaches(k: State, run: seq<Action>, k': State)
    decreases |run|
  {
    if run == [] then k' == k else Enabled(k, run[0]) && Reaches(Next(k, run[0]), run[1..], k')
  }

  lemma {:induction false} RunKeepsInv(k: State, run: seq<Action>, k': State)
    requires Inv(k) && Reaches(k, run, k')
    ensures Inv(k')
    decreases |run|
  {
    if run != [] {
      NextKeepsInv(k, run[0]);
      RunKeepsInv(Next(k, run[0]), run[1..], k');
    }
  }

  // ---- What every reachable state satisfies ----

  /** Status, queues and processor agree; every forked unfinished thread is in exactly one place; no two threads are
    inside one lock; and semaphores count. */
  lemma ReachableIsSafe(k: State, run: seq<Action>, k': State, t: Tid)
    requires Start(k) && Reaches(k, run, k')
    ensures Placed(k') && Exclusive(k') && SemsOk(k') && LocksOk(k')
    ensures t in k'.threads && Started(k'.threads[t]) ==> InOnePlace(k', t)
    ensures forall s :: s in k'.sems ==> 0 <= k'.sems[s].value == k'.sems[s].initial + k'.sems[s].vs - k'.sems[s].ps
  {
    StartHasInv(k);
    RunKeepsInv(k, run, k');
    NamesMakeLocksExclusive(k');
    if t in k'.threads && Started(k'.threads[t]) {
      ExactlyOnePlace(k', t);
    }
    SemaphoresCount(k');
  }

  lemma SemaphoresCount(k: State)
    requires SemsOk(k)
    ensures forall s :: s in k.sems ==> 0 <= k.sems[s].value == k.sems[s].initial + k.sems[s].vs - k.sems[s].ps
  {
    forall s | s in k.sems
      ensures 0 <= k.sems[s].value == k.sems[s].initial + k.sems[s].vs - k.sems[s].ps
    {
      assert SemOk(k, s);
    }
  }

  /** When nothing can run any more, whoever waits does so for a reason: a semaphore with waiters is 0, and a
    lock with waiters is held by a thread that cannot run either. */
  lemma NoWakeupIsLost(k: State, run: seq<Action>, k': State)
    requires Start(k) && Reaches(k, run, k') && k'.cpu == None && k'.ready == []
    ensures forall s :: s in k'.sems && k'.sems[s].queue != [] ==> k'.sems[s].value == 0
    ensures forall l :: l in k'.locks && k'.locks[l].queue != [] ==>
              && k'.locks[l].held
              && exists t :: IsNameOf(k', t, k'.locks[l].owner) && k'.threads[t].status !in {Running, Ready}
                                               && l in k'.threads[t].holding
  {
    StartHasInv(k);
    RunKeepsInv(k, run, k');
    forall cont
      ensures Pending(k', cont) == {}
    {
      NothingPending(k', cont);
    }
    forall s | s in k'.sems && k'.sems[s].queue != []
      ensures k'.sems[s].value == 0
    {
      assert SemOk(k', s) && Pending(k', InP(s)) == {};
    }
    forall l | l in k'.locks && k'.locks[l].queue != []
      ensures k'.locks[l].held
      ensures exists t :: IsNameOf(k', t, k'.locks[l].owner) && k'.threads[t].status !in {Running, Ready}
                                               && l in k'.threads[t].holding
    {
      assert LockOk(k', l) && Pending(k', InAcquire(l)) == {};
      StuckOwner(k', l);
    }
  }

  lemma NothingPending(k: State, cont: Continuation)
    requires Placed(k) && k.cpu == None && k.ready == []
    ensures Pending(k, cont) == {}
  {
    forall t | t in k.threads
      ensures k.threads[t].status !in {Running, Ready}
    {
      assert InQueue(QueueAt(k, OnReady), t) <==> Is(k, t, OnReady);
    }
  }

  lemma StuckOwner(k: State, l: nat)
    requires Placed(k) && OwnersOk(k) && k.cpu == None && k.ready == [] && l in k.locks && k.locks[l].held
    ensures exists t :: IsNameOf(k, t, k.locks[l].owner) && k.threads[t].status !in {Running, Ready}
                        && l in k.threads[t].holding
  {
    var t :| IsNameOf(k, t, k.locks[l].owner);
    assert IsHeldBy(k.locks[l], k.threads[t].name);
    NothingPending(k, k.threads[t].cont);
    assert t !in Pending(k, k.threads[t].cont);
  }

  /** The thread that gets the processor has the best priority on the ready list (a smaller key is better), and
    one that becomes ready waits behind its equals. */
  lemma BestPriorityRuns(k: State)
    requires Placed(k) && k.ready != []
    ensures Dispatch(k).cpu == Some(k.ready[0].item)
    ensures forall i :: 0 <= i < |k.ready| ==> k.ready[0].key <= k.ready[i].key
  {
    FrontIsThere(k, OnReady);
    assert QueueOk(QueueAt(k, OnReady));
  }

  /** Wait gives the lock up and puts the caller to sleep on the condition in one step, so that no signal can
    fall in between. */
  lemma WaitIsOneStep(k: State, c: nat, l: nat)
    requires Inv(k) && Holds(k, l) && c in k.conds
    ensures var k', t := StepWait(k, c, l), k.cpu.value;
            && l in k'.locks && !k'.locks[l].held
            && t in k'.threads && k'.threads[t].status == Blocked && k'.threads[t].cont == InWait(c, l)
            && k'.threads[t].holding == Me(k).holding - {l}
            && c in k'.conds && InQueue(k'.conds[c], t)
  {
    WaitEffect(k, c, l);
    WaitQueues(k, c, l);
  }

  lemma WaitIs(k: State, c: nat, l: nat)
    requires Placed(k) && Holds(k, l) && c in k.conds
    ensures var k1 := StepRelease(k, l);
            && Runs(k1) && k1.cpu == k.cpu && c in k1.conds && l in k1.locks && !k1.locks[l].held
            && Me(k1).holding == Me(k).holding - {l} && StepWait(k, c, l) == Dispatch(Enlisted(k1, c, l))
  {
    ReleaseEffect(k, l);
  }

  lemma EnlistedPlaced(k: State, c: nat, l: nat)
    requires Inv(k) && Holds(k, l) && c in k.conds
    ensures var k1 := StepRelease(k, l); Runs(k1) && c in k1.conds && Placed(Enlisted(k1, c, l))
  {
    ReleaseKeepsInv(k, l);
    ReleaseEffect(k, l);
    EnlistedPlaces(StepRelease(k, l), c, l);
  }

  lemma WaitEffect(k: State, c: nat, l: nat)
    requires Inv(k) && Holds(k, l) && c in k.conds
    ensures var k', t := StepWait(k, c, l), k.cpu.value;
            && l in k'.locks && !k'.locks[l].held
            && t in k'.threads && k'.threads[t].status == Blocked && k'.threads[t].cont == InWait(c, l)
            && k'.threads[t].holding == Me(k).holding - {l}
            && c in k'.conds
  {
    WaitIs(k, c, l);
    EnlistedPlaced(k, c, l);
    EnlistedStays(StepRelease(k, l), c, l);
  }

  lemma WaitQueues(k: State, c: nat, l: nat)
    requires Inv(k) && Holds(k, l) && c in k.conds
    ensures var k' := StepWait(k, c, l); c in k'.conds && InQueue(k'.conds[c], k.cpu.value)
  {
    WaitKeepsInv(k, c, l);
    WaitEffect(k, c, l);
    InOwnQueue(StepWait(k, c, l), k.cpu.value, OnCond(c));
  }

  lemma EnlistedStays(k: State, c: nat, l: nat)
    requires Runs(k) && c in k.conds && l in k.locks && Placed(Enlisted(k, c, l))
    ensures var k', t := Dispatch(Enlisted(k, c, l)), k.cpu.value;
            && t in k'.threads && k'.threads[t] == Me(k).(status := Blocked, cont := InWait(c, l))
            && k'.locks == k.locks && c in k'.conds
  {
    FrontOfReady(Enlisted(k, c, l), k.cpu.value);
  }

  lemma InOwnQueue(k: State, t: Tid, p: Location)
    requires Placed(k) && Queues(p) && Is(k, t, p)
    ensures InQueue(QueueAt(k, p), t)
  {}

  lemma FrontOfReady(k: State, t: Tid)
    requires Placed(k) && t in k.threads && k.threads[t].status == Blocked
    ensures k.ready != [] ==> k.ready[0].item != t
  {
    if k.ready != [] {
      FrontIsThere(k, OnReady);
    }
  }

  /** Whoever gets past the second half of Wait, or past Acquire's loop, holds the lock. */
  lemma ReturningMeansHolding(k: State, l: nat)
    requires Inv(k) && Runs(k) && (Me(k).cont == InAcquire(l) || (Me(k).cont.InWait? && Me(k).cont.cl == l))
    ensures var k', t := StepResume(k), k.cpu.value;
            && t in k'.threads && l in k'.locks
            && (k'.threads[t].cont == InUser ==> l in k'.threads[t].holding && IsHeldBy(k'.locks[l], Me(k).name))
            && (k'.threads[t].cont == InUser <==> !k.locks[l].held)
  {
    var t := k.cpu.value;
    assert Is(k, t, OnCpu);
    if k.locks[l].held {
      AcquireTurnPlaces(k, l);
      assert InQueue(QueueAt(k, OnReady), t) <==> Is(k, t, OnReady);
    }
  }

  /** P returns exactly if there was a unit, and takes exactly one. */
  lemma ReturningFromPTakesAUnit(k: State, s: nat)
    requires Inv(k) && Runs(k) && s in k.sems && Me(k).cont in {InUser, InP(s)}
    ensures var k', t := StepP(k, s), k.cpu.value;
            && t in k'.threads && s in k'.sems
            && (k'.threads[t].cont == InUser <==> k.sems[s].value > 0)
            && k'.sems[s].value == k.sems[s].value - (if k.sems[s].value > 0 then 1 else 0)
            && (k.sems[s].value == 0 ==> InQueue(k'.sems[s].queue, t) && k'.threads[t].status == Blocked)
  {
    assert SemOk(k, s);
    PTurnPlaces(k, s);
    if k.sems[s].value == 0 {
      FrontOfReady(PTurn(k, s), k.cpu.value);
      InOwnQueue(PTurn(k, s), k.cpu.value, OnSem(s));
    }
  }

  /** Signal makes the first waiter, and nobody else, ready; without waiters it does nothing. */
  lemma SignalWakesTheFirst(k: State, c: nat, t: Tid)
    requires Inv(k) && c in k.conds && t in k.threads
    ensures var k' := StepSignal(k, c);
            && t in k'.threads
            && (if k.conds[c] != [] && t == k.conds[c][0].item then
                  k.threads[t].status == Blocked && k'.threads[t].status == Ready
                else k'.threads[t] == k.threads[t])
  {
    if k.conds[c] != [] {
      SignalPlaces(k, c);
    }
  }

  /** Yield gives the processor to the front of the ready list and queues the caller there; alone, it goes on. */
  lemma YieldHandsOver(k: State)
    requires Inv(k) && Runs(k) && Me(k).cont == InUser
    ensures k.ready == [] ==> StepYield(k) == k
    ensures k.ready != [] ==>
              var k', t := StepYield(k), k.cpu.value;
              && k'.cpu == Some(k.ready[0].item) && t in k'.threads && k'.threads[t].status == Ready
              && k'.ready == SortedInsertion(k.ready[1..], t, Me(k).priority)
  {
    if k.ready != [] {
      FrontIsThere(k, OnReady);
      assert Is(k, k.cpu.value, OnCpu);
    }
  }

  lemma {:induction false} BroadcastWakesAll(k: State, c: nat, t: Tid)
    requires Inv(k) && c in k.conds && t in k.threads
    requires InQueue(k.conds[c], t) || k.threads[t].status == Ready
    ensures t in StepBroadcast(k, c).threads && StepBroadcast(k, c).threads[t].status == Ready
    decreases |k.conds[c]|
  {
    if k.conds[c] != [] {
      SignalKeepsInv(k, c);
      SignalPlaces(k, c);
      RemovalMembers(QueueAt(k, OnCond(c)));
      BroadcastWakesAll(StepSignal(k, c), c, t);
    }
  }

  // ---- What the protocols take for granted ----

  /** Who is inside a lock. */
  function Holders(k: State, l: nat): set<Tid> {
    set t | t in k.threads && l in k.threads[t].holding
  }

  /** A lock passes from nobody to the running thread, or back. */
  predicate LockPasses(k: State, k': State, l: nat) {
    || Holders(k', l) == Holders(k, l)
    || (k.cpu.Some? && Holders(k, l) == {} && Holders(k', l) == {k.cpu.value})
    || (k.cpu.Some? && Holders(k, l) == {k.cpu.value} && Holders(k', l) == {})
  }

  /** A semaphore gains a unit, or loses one that it had. */
  predicate UnitsPass(k: State, k': State, s: nat)
    requires s in k.sems
  {
    s in k'.sems && (k'.sems[s].value in {k.sems[s].value, k.sems[s].value + 1}
                     || 0 <= k'.sems[s].value == k.sems[s].value - 1)
  }

  ghost predicate AllUnitsPass(k: State, k': State) {
    forall s :: s in k.sems ==> UnitsPass(k, k', s)
  }

  /** Only the running thread comes to hold or gives up locks; new threads hold none. */
  ghost predicate OnlyMine(k: State, k': State) {
    && (k.cpu.Some? ==> k.cpu.value in k'.threads)
    && (forall t :: t in k.threads && k.cpu != Some(t) ==>
            t in k'.threads && k'.threads[t].holding == k.threads[t].holding)
    && (forall t :: t in k'.threads && t !in k.threads ==> k'.threads[t].holding == {})
  }

  ghost predicate SameHolding(k: State, k': State) {
    && k'.threads.Keys == k.threads.Keys && k'.sems == k.sems
    && forall t :: t in k.threads ==> k'.threads[t].holding == k.threads[t].holding
  }

  lemma DispatchHolding(k: State)
    ensures SameHolding(k, Dispatch(k))
  {}

  lemma ReadyHolding(k: State, t: Tid)
    ensures SameHolding(k, ReadyToRun(k, t))
  {}

  lemma WakeUpHolding(k: State, woken: Option<Tid>)
    ensures SameHolding(k, WakeUp(k, woken))
  {}

  lemma ThenSame(k: State, k1: State, k': State)
    requires OnlyMine(k, k1) && SameHolding(k1, k')
    ensures OnlyMine(k, k')
  {}

  lemma PHolding(k: State, s: nat)
    requires Runs(k) && s in k.sems && k.sems[s].value >= 0
    ensures OnlyMine(k, StepP(k, s)) && AllUnitsPass(k, StepP(k, s))
  {
    assert OnlyMine(k, PTurn(k, s)) && AllUnitsPass(k, PTurn(k, s));
    DispatchHolding(PTurn(k, s));
    ThenSame(k, PTurn(k, s), Dispatch(PTurn(k, s)));
  }

  lemma VHolding(k: State, s: nat)
    requires s in k.sems && (k.cpu.Some? ==> Runs(k))
    ensures OnlyMine(k, StepV(k, s)) && AllUnitsPass(k, StepV(k, s))
  {
    var (sem, woken) := VStep(k.sems[s]);
    WakeUpHolding(k.(sems := k.sems[s := sem]), woken);
  }

  lemma AcquireTurnHolding(k: State, l: nat)
    requires Runs(k) && l in k.locks
    ensures OnlyMine(k, StepAcquireTurn(k, l)) && StepAcquireTurn(k, l).sems == k.sems
  {
    assert OnlyMine(k, AcquireTurn(k, l)) && AcquireTurn(k, l).sems == k.sems;
    DispatchHolding(AcquireTurn(k, l));
    ThenSame(k, AcquireTurn(k, l), Dispatch(AcquireTurn(k, l)));
  }

  lemma AcquireHolding(k: State, l: nat)
    requires Runs(k) && l in k.locks
    ensures OnlyMine(k, StepAcquire(k, l)) && StepAcquire(k, l).sems == k.sems
  {
    AcquireTurnHolding(k, l);
  }

  lemma ReleaseHolding(k: State, l: nat)
    requires Runs(k) && l in k.locks
    ensures var k' := StepRelease(k, l);
            OnlyMine(k, k') && k'.sems == k.sems && k'.threads.Keys == k.threads.Keys && k'.cpu == k.cpu
  {
    var (lock, woken) := ReleaseStep(k.locks[l]);
    var k1 := Freed(k, l).(locks := k.locks[l := lock]);
    WakeUpHolding(k1, woken);
    ThenSame(k, k1, WakeUp(k1, woken));
  }

  lemma WaitHolding(k: State, c: nat, l: nat)
    requires Runs(k) && c in k.conds && l in k.locks
    ensures OnlyMine(k, StepWait(k, c, l)) && StepWait(k, c, l).sems == k.sems
  {
    var k1 := StepRelease(k, l);
    ReleaseHolding(k, l);
    if c in k1.conds {
      assert SameHolding(k1, Enlisted(k1, c, l));
      DispatchHolding(Enlisted(k1, c, l));
      ThenSame(k, k1, Enlisted(k1, c, l));
      ThenSame(k, Enlisted(k1, c, l), StepWait(k, c, l));
    }
  }

  lemma {:induction false} BroadcastHolding(k: State, c: nat)
    requires c in k.conds
    ensures SameHolding(k, StepBroadcast(k, c))
    decreases |k.conds[c]|
  {
    if k.conds[c] != [] {
      BroadcastHolding(StepSignal(k, c), c);
    }
  }

  lemma YieldHolding(k: State)
    requires Runs(k)
    ensures SameHolding(k, StepYield(k))
  {
    if k.ready != [] {
      DispatchHolding(SteppedAside(k));
      ReadyHolding(Dispatch(SteppedAside(k)), k.cpu.value);
    }
  }

  lemma ResumeHolding(k: State)
    requires Runs(k) && ContinuationOk(k, Me(k)) && SemsOk(k)
    ensures OnlyMine(k, StepResume(k)) && AllUnitsPass(k, StepResume(k))
  {
    match Me(k).cont
    case InP(s) =>
      assert SemOk(k, s);
      PHolding(k, s);
    case InAcquire(l) => AcquireTurnHolding(k, l);
    case InWait(_, l) => AcquireHolding(k, l);
    case _ =>
  }

  lemma SignalHolding(k: State, c: nat)
    requires c in k.conds
    ensures SameHolding(k, StepSignal(k, c))
  {}

  lemma FinishHolding(k: State)
    requires Runs(k)
    ensures SameHolding(k, StepFinish(k))
  {
    DispatchHolding(Suspended(k, Finished));
  }

  lemma CreateHolding(k: State, t: Tid, name: string, priority: int)
    requires Runs(k) && t !in k.threads
    ensures OnlyMine(k, Created(k, t, name, priority)) && AllUnitsPass(k, Created(k, t, name, priority))
  {}

  lemma SamePasses(k: State, k': State)
    requires SameHolding(k, k') && (k.cpu.Some? ==> Runs(k))
    ensures OnlyMine(k, k') && AllUnitsPass(k, k')
  {}

  predicate IsScheduling(a: Action) {
    a.DoYield? || a.DoFinish? || a.DoCreate? || a.DoFork? || a.DoSetPriority? || a.EndIdle?
  }

  lemma SchedulingHolding(k: State, a: Action)
    requires Enabled(k, a) && IsScheduling(a) && (k.cpu.Some? ==> Runs(k))
    ensures OnlyMine(k, Next(k, a)) && AllUnitsPass(k, Next(k, a))
  {
    match a
    case DoYield =>
      YieldHolding(k);
      SamePasses(k, StepYield(k));
    case DoFinish =>
      FinishHolding(k);
      SamePasses(k, StepFinish(k));
    case DoCreate(t, name, priority) => CreateHolding(k, t, name, priority);
    case DoFork(t) =>
      ReadyHolding(k, t);
      SamePasses(k, StepFork(k, t));
    case DoSetPriority(t, newPriority) => SamePasses(k, StepSetPriority(k, t, newPriority));
    case EndIdle =>
      DispatchHolding(k);
      SamePasses(k, Dispatch(k));
  }

  lemma SynchHolding(k: State, a: Action)
    requires Enabled(k, a) && !IsScheduling(a) && (k.cpu.Some? ==> Runs(k)) && SemsOk(k)
    ensures OnlyMine(k, Next(k, a)) && AllUnitsPass(k, Next(k, a))
  {
    match a
    case DoP(s) =>
      assert SemOk(k, s);
      PHolding(k, s);
    case DoV(s) => VHolding(k, s);
    case DoAcquire(l) => AcquireHolding(k, l);
    case DoRelease(l) => ReleaseHolding(k, l);
    case DoWait(c, l) => WaitHolding(k, c, l);
    case DoSignal(c, _) =>
      SignalHolding(k, c);
      SamePasses(k, StepSignal(k, c));
    case DoBroadcast(c, _) =>
      BroadcastHolding(k, c);
      SamePasses(k, StepBroadcast(k, c));
    case DoResume => ResumeHolding(k);
    case InterruptV(s) => VHolding(k, s);
  }

  lemma StepHolding(k: State, a: Action)
    requires Inv(k) && Enabled(k, a)
    ensures OnlyMine(k, Next(k, a)) && AllUnitsPass(k, Next(k, a))
  {
    if IsScheduling(a) {
      SchedulingHolding(k, a);
    } else {
      SynchHolding(k, a);
    }
  }

  lemma LockPassesOn(k: State, k': State, l: nat)
    requires OnlyMine(k, k') && Exclusive(k) && Exclusive(k')
    ensures LockPasses(k, k', l)
  {
    assert forall t :: k.cpu != Some(t) ==> (t in Holders(k, l) <==> t in Holders(k', l));
    assert forall t, u :: t in Holders(k, l) && u in Holders(k, l) ==> t == u;
    assert forall t, u :: t in Holders(k', l) && u in Holders(k', l) ==> t == u;
  }

  /** In every run and at every step, a lock is taken only by the running thread and only when nobody is inside it,
    and is given up only by the thread inside it; and a semaphore gives away only units that it has. That is what
    the modules Mailbox, Whales and SynchDiskProtocol take for granted of their locks and semaphores. */
  lemma LocksAndSemaphoresAreAsAssumed(k: State, run: seq<Action>, k': State, a: Action)
    requires Start(k) && Reaches(k, run, k') && Enabled(k', a)
    ensures forall l :: LockPasses(k', Next(k', a), l)
    ensures forall s :: s in k'.sems ==> UnitsPass(k', Next(k', a), s)
  {
    StartHasInv(k);
    RunKeepsInv(k, run, k');
    NextKeepsInv(k', a);
    NamesMakeLocksExclusive(k');
    NamesMakeLocksExclusive(Next(k', a));
    StepHolding(k', a);
    forall l
      ensures LockPasses(k', Next(k', a), l)
    {
      LockPassesOn(k', Next(k', a), l);
    }
  }

  /** Acquire by the holder changes nothing, not even for the holder; so one Release gives back what any number of
    Acquires have taken. */
  lemma OneReleaseUndoesAllAcquires(k: State, l: nat)
    requires Inv(k) && Holds(k, l)
    ensures StepAcquire(k, l) == k
    ensures var k' := StepRelease(k, l); l in k'.locks && !k'.locks[l].held && Holders(k', l) == {}
  {
    assert IsHeldBy(k.locks[l], Me(k).name);
    assert Me(k).holding + {l} == Me(k).holding;
    ReleaseEffect(k, l);
    ReleaseHolding(k, l);
    NamesMakeLocksExclusive(k);
  }

  // ---- Why names must differ ----

  /** While thread `t` is inside a lock, Acquire lets another one in exactly when the two have the same name; whether
    that calls it, or comes to it at the end of Wait. */
  lemma OnlyNamesakesShareALock(k: State, l: nat, t: Tid)
    requires Runs(k) && Exclusive(k)
    requires l in k.locks && t in k.threads && t != k.cpu.value
    requires l in k.threads[t].holding && IsHeldBy(k.locks[l], k.threads[t].name)
    ensures Exclusive(StepAcquire(k, l)) <==> Me(k).name != k.threads[t].name
  {
    var me, k' := k.cpu.value, StepAcquire(k, l);
    if Me(k).name == k.threads[t].name {
      assert l in k'.threads[me].holding && l in k'.threads[t].holding;
    } else {
      assert forall u :: u in k'.threads ==> u in k.threads && k'.threads[u].holding == k.threads[u].holding;
    }
  }

  /** Two threads named alike, one lock: the first acquires it and yields, the second acquires it as well. */
  lemma NamesakesBreakExclusion(k: State, one: Thread)
    requires one == Thread("a", 0, Running, InUser, {})
    requires k.threads == map[1 := one, 2 := one.(status := Ready)] && k.ready == [Element(2, 0)] && k.cpu == Some(1)
    requires k.locks == map[0 := LockValue(false, "", [])] && k.sems == map[] && k.conds == map[]
    ensures Exclusive(k) && exists k' :: Reaches(k, [DoAcquire(0), DoYield, DoAcquire(0)], k') && !Exclusive(k')
  {
    FirstNamesake(k);
    var k1 := Next(k, DoAcquire(0));
    SecondNamesake(k1);
    var k2 := Next(k1, DoYield);
    var k3 := Next(k2, DoAcquire(0));
    assert 0 in k3.threads[1].holding && 0 in k3.threads[2].holding;
    ThreeSteps(k, DoAcquire(0), DoYield, DoAcquire(0));
  }

  lemma FirstNamesake(k: State)
    requires Free(k) && k.cpu == Some(1) && 0 in k.locks && !k.locks[0].held
    requires 2 in k.threads && k.threads[2].name == Me(k).name
    ensures Enabled(k, DoAcquire(0))
    ensures var k' := Next(k, DoAcquire(0));
            && Free(k') && k'.cpu == Some(1) && k'.ready == k.ready && 0 in k'.threads[1].holding
            && 2 in k'.threads && k'.threads[2] == k.threads[2]
            && 0 in k'.locks && IsHeldBy(k'.locks[0], k.threads[2].name)
  {}

  lemma SecondNamesake(k: State)
    requires Free(k) && k.cpu == Some(1) && 0 in k.threads[1].holding && k.ready == [Element(2, 0)]
    requires 2 in k.threads && k.threads[2].cont == InUser && 0 in k.locks && IsHeldBy(k.locks[0], k.threads[2].name)
    ensures Enabled(k, DoYield)
    ensures var k' := Next(k, DoYield);
            && Free(k') && k'.cpu == Some(2) && 1 in k'.threads && 0 in k'.threads[1].holding
            && 0 in k'.locks && IsHeldBy(k'.locks[0], Me(k').name) && Enabled(k', DoAcquire(0))
  {}

  lemma ThreeSteps(k: State, a: Action, b: Action, c: Action)
    requires Enabled(k, a) && Enabled(Next(k, a), b) && Enabled(Next(Next(k, a), b), c)
    ensures Reaches(k, [a, b, c], Next(Next(Next(k, a), b), c))
  {
    var k3 := Next(Next(Next(k, a), b), c);
    assert [c][1..] == [] && [b, c][1..] == [c] && [a, b, c][1..] == [b, c];
    assert Reaches(Next(Next(k, a), b), [c], k3);
    assert Reaches(Next(k, a), [b, c], k3);
  }
}
