/** What each operation of the kernel does, to its caller, to the thread that gets the processor, and to everyone
  else; and that a thread that has finished is through for good. */
module Operations {
  import opened Options
  import opened Lists
  import opened Synch
  import opened WaitLists
  import opened Kernel

  // ---- Who is concerned ----

  /** All threads but these are as they were. */
  ghost predicate OnlyThese(k: State, k': State, these: set<Tid>) {
    forall t :: t in k.threads && t !in these ==> t in k'.threads && k'.threads[t] == k.threads[t]
  }

  function FrontOf(q: Queue): set<Tid> {
    if q == [] then {} else {q[0].item}
  }

  ghost predicate OnNoQueue(k: State, t: Tid) {
    forall p :: Queues(p) ==> !InQueue(QueueAt(k, p), t)
  }

  /** The processor goes to the front of that ready list, or to nobody if it is empty. */
  predicate HandsOver(k': State, ready: Queue) {
    if ready == [] then k'.cpu == None && k'.ready == []
    else
      && k'.cpu == Some(ready[0].item) && k'.ready == ready[1..]
      && ready[0].item in k'.threads && k'.threads[ready[0].item].status == Running
  }

  /** The caller sleeps, to go on there, and the next thread runs. */
  predicate Sleeps(k: State, k': State, cont: Continuation)
    requires Runs(k)
  {
    var t := k.cpu.value;
    && t in k'.threads && k'.threads[t] == Me(k).(status := Blocked, cont := cont)
    && k'.cpu != k.cpu && HandsOver(k', k.ready)
  }

  /** The caller goes on in its own code, holding these locks. */
  predicate GoesOn(k: State, k': State, holding: set<nat>)
    requires Runs(k)
  {
    && k'.cpu == k.cpu && k'.ready == k.ready && k.cpu.value in k'.threads
    && k'.threads[k.cpu.value] == Me(k).(cont := InUser, holding := holding)
  }

  /** A waiter becomes ready, queued by its priority; nobody else moves. */
  predicate WakesFront(k: State, k': State, q: Queue) {
    && k'.cpu == k.cpu
    && if q == [] then k'.ready == k.ready
       else
         var u := q[0].item;
         && u in k.threads && u in k'.threads && k'.threads[u] == k.threads[u].(status := Ready)
         && k'.ready == SortedInsertion(k.ready, u, k.threads[u].priority)
  }

  lemma SleepingHandsOver(k: State, cont: Continuation)
    requires Inv(k) && Runs(k)
    ensures Sleeps(k, Dispatch(Suspended(k, cont)), cont)
    ensures OnlyThese(k, Dispatch(Suspended(k, cont)), {k.cpu.value} + FrontOf(k.ready))
  {
    assert Is(k, k.cpu.value, OnCpu);
    if k.ready != [] {
      FrontIsThere(k, OnReady);
    }
  }

  // ---- What can be done ----

  /** A running thread that is half way through an operation can go on with it; an idle processor can look at the ready
    list, and a handler can always do V. */
  lemma WhatCanGoOn(k: State, s: nat)
    requires Inv(k)
    ensures k.cpu == None ==> Enabled(k, EndIdle)
    ensures s in k.sems ==> Enabled(k, InterruptV(s))
    ensures Runs(k) && Me(k).cont != InUser ==> Enabled(k, DoResume)
  {}

  /** Any other running thread can call any operation, for Release, Wait, Signal and Broadcast with the lock held. */
  lemma WhatCanBeCalled(k: State, s: nat, l: nat, c: nat)
    requires Inv(k) && Runs(k) && Me(k).cont == InUser
    ensures s in k.sems ==> Enabled(k, DoP(s)) && Enabled(k, DoV(s))
    ensures l in k.locks ==> Enabled(k, DoAcquire(l))
    ensures l in k.locks && l in Me(k).holding ==> Enabled(k, DoRelease(l))
    ensures l in k.locks && l in Me(k).holding && c in k.conds ==>
              Enabled(k, DoWait(c, l)) && Enabled(k, DoSignal(c, l)) && Enabled(k, DoBroadcast(c, l))
  {}

  lemma WhatThreadsCanDo(k: State, t: Tid, name: string, priority: int)
    requires Inv(k) && Runs(k) && Me(k).cont == InUser
    ensures Enabled(k, DoYield) && Enabled(k, DoFinish)
    ensures t !in k.threads && NameFree(k, name) ==> Enabled(k, DoCreate(t, name, priority))
    ensures t in k.threads && k.threads[t].status == JustCreated ==> Enabled(k, DoFork(t))
    ensures t in k.threads ==> Enabled(k, DoSetPriority(t, priority))
  {}

  // ---- Semaphores ----

  predicate CallsP(k: State, a: Action, s: nat) {
    a == DoP(s) || (a.DoResume? && Runs(k) && Me(k).cont == InP(s))
  }

  /** P, called or resumed, on any semaphore: it takes a unit and returns, or sleeps on the semaphore's queue. */
  lemma WhatPDoes(k: State, a: Action, s: nat)
    requires Inv(k) && Enabled(k, a) && CallsP(k, a, s)
    ensures s in k.sems && s in Next(k, a).sems
    ensures var k', v := Next(k, a), k.sems[s];
            && (v.value > 0 ==> GoesOn(k, k', Me(k).holding) && k'.sems[s] == v.(value := v.value - 1, ps := v.ps + 1))
            && (v.value == 0 ==>
                  && Sleeps(k, k', InP(s)) && k'.sems[s].value == 0
                  && k'.sems[s].queue == SortedInsertion(v.queue, k.cpu.value, Me(k).priority))
    ensures OnlyThese(k, Next(k, a), {k.cpu.value} + FrontOf(k.ready))
    ensures Next(k, a).locks == k.locks && Next(k, a).conds == k.conds
  {
    assert SemOk(k, s);
    assert Is(k, k.cpu.value, OnCpu);
    if k.ready != [] {
      FrontIsThere(k, OnReady);
    }
  }

  predicate CallsV(a: Action, s: nat) {
    a == DoV(s) || a == InterruptV(s)
  }

  /** V, by a thread or an interrupt handler: one unit more, and the first waiter becomes ready. */
  lemma WhatVDoes(k: State, a: Action, s: nat)
    requires Inv(k) && Enabled(k, a) && CallsV(a, s)
    ensures s in k.sems && s in Next(k, a).sems
    ensures var k', v := Next(k, a), k.sems[s];
            && k'.sems[s].value == v.value + 1 && k'.sems[s].vs == v.vs + 1
            && k'.sems[s].queue == (if v.queue == [] then [] else v.queue[1..])
            && WakesFront(k, k', v.queue) && OnlyThese(k, k', FrontOf(v.queue))
    ensures Next(k, a).locks == k.locks && Next(k, a).conds == k.conds
  {
    if k.sems[s].queue != [] {
      FrontIsThere(k, OnSem(s));
    }
  }

  // ---- Locks ----

  predicate CallsAcquire(k: State, a: Action, l: nat) {
    || a == DoAcquire(l)
    || (a.DoResume? && Runs(k) && (Me(k).cont == InAcquire(l) || (Me(k).cont.InWait? && Me(k).cont.cl == l)))
  }

  /** Acquire, called, resumed, or at the end of Wait: a free lock is taken; a lock held under the caller's name is left
    as it is; and on any other the caller sleeps. */
  lemma WhatAcquireDoes(k: State, a: Action, l: nat)
    requires Inv(k) && Enabled(k, a) && CallsAcquire(k, a, l)
    ensures l in k.locks && l in Next(k, a).locks
    ensures var k', v := Next(k, a), k.locks[l];
            && (!v.held ==>
                  GoesOn(k, k', Me(k).holding + {l}) && k'.locks[l] == v.(held := true, owner := Me(k).name))
            && (IsHeldBy(v, Me(k).name) ==> GoesOn(k, k', Me(k).holding) && k'.locks == k.locks)
            && (v.held && v.owner != Me(k).name ==>
                  && Sleeps(k, k', InAcquire(l)) && k'.locks[l].held && k'.locks[l].owner == v.owner
                  && k'.locks[l].queue == SortedInsertion(v.queue, k.cpu.value, Me(k).priority))
    ensures OnlyThese(k, Next(k, a), {k.cpu.value} + FrontOf(k.ready))
    ensures Next(k, a).sems == k.sems && Next(k, a).conds == k.conds
  {
    if IsHeldBy(k.locks[l], Me(k).name) {
      HeldIsKept(k, a, l);
    } else {
      assert Next(k, a) == StepAcquireTurn(k, l);
      if k.locks[l].held {
        AcquireSleeps(k, l);
      } else {
        FreeIsTaken(k, l);
      }
    }
  }

  /** The resumed loop does not look at the name again; but whoever sleeps in it does not hold the lock. */
  lemma HeldIsKept(k: State, a: Action, l: nat)
    requires Inv(k) && Enabled(k, a) && CallsAcquire(k, a, l) && IsHeldBy(k.locks[l], Me(k).name)
    ensures GoesOn(k, Next(k, a), Me(k).holding) && Next(k, a).locks == k.locks
    ensures OnlyThese(k, Next(k, a), {k.cpu.value}) && Next(k, a).sems == k.sems && Next(k, a).conds == k.conds
  {
    assert Is(k, k.cpu.value, OnCpu);
    assert l in Me(k).holding && Me(k).holding + {l} == Me(k).holding;
    assert Next(k, a) == Entered(k, l);
  }

  lemma FreeIsTaken(k: State, l: nat)
    requires Inv(k) && Runs(k) && l in k.locks && !k.locks[l].held
    ensures var k', v := StepAcquireTurn(k, l), k.locks[l];
            && GoesOn(k, k', Me(k).holding + {l}) && OnlyThese(k, k', {k.cpu.value})
            && l in k'.locks && k'.locks[l] == v.(held := true, owner := Me(k).name)
            && k'.sems == k.sems && k'.conds == k.conds
  {}

  lemma AcquireSleeps(k: State, l: nat)
    requires Inv(k) && Runs(k) && l in k.locks && k.locks[l].held
    ensures var k', v := StepAcquireTurn(k, l), k.locks[l];
            && Sleeps(k, k', InAcquire(l)) && OnlyThese(k, k', {k.cpu.value} + FrontOf(k.ready))
            && l in k'.locks && k'.locks[l].held && k'.locks[l].owner == v.owner
            && k'.locks[l].queue == SortedInsertion(v.queue, k.cpu.value, Me(k).priority)
            && k'.sems == k.sems && k'.conds == k.conds
  {
    assert Is(k, k.cpu.value, OnCpu);
    if k.ready != [] {
      FrontIsThere(k, OnReady);
    }
  }

  /** Release: the lock is free, the caller no longer inside, and the first waiter ready. */
  lemma WhatReleaseDoes(k: State, l: nat)
    requires Inv(k) && Enabled(k, DoRelease(l))
    ensures var k', t, v := Next(k, DoRelease(l)), k.cpu.value, k.locks[l];
            && l in k'.locks && !k'.locks[l].held && k'.locks[l].queue == (if v.queue == [] then [] else v.queue[1..])
            && t in k'.threads && k'.threads[t] == Me(k).(holding := Me(k).holding - {l})
            && WakesFront(k, k', v.queue) && OnlyThese(k, k', {t} + FrontOf(v.queue))
    ensures Next(k, DoRelease(l)).sems == k.sems && Next(k, DoRelease(l)).conds == k.conds
  {
    assert Is(k, k.cpu.value, OnCpu);
    if k.locks[l].queue != [] {
      FrontIsThere(k, OnLock(l));
    }
  }

  // ---- Threads ----

  /** Finish: the caller is through, on no queue and off the processor, which goes to the front of the ready list. */
  lemma WhatFinishDoes(k: State)
    requires Inv(k) && Free(k)
    ensures var k', t := Next(k, DoFinish), k.cpu.value;
            && Sleeps(k, k', Finished) && OnNoQueue(k', t) && OnlyThese(k, k', {t} + FrontOf(k.ready))
            && k'.sems == k.sems && k'.locks == k.locks && k'.conds == k.conds
  {
    SleepingHandsOver(k, Finished);
    NextKeepsInv(k, DoFinish);
    assert Is(Next(k, DoFinish), k.cpu.value, Nowhere);
  }

  /** Yield: the front of the ready list runs instead, if there is one. */
  lemma WhatYieldDoes(k: State)
    requires Inv(k) && Free(k)
    ensures var k', t := Next(k, DoYield), k.cpu.value;
            if k.ready == [] then k' == k
            else
              && t in k'.threads && k'.threads[t] == Me(k).(status := Ready)
              && k'.cpu == Some(k.ready[0].item) && k'.ready == SortedInsertion(k.ready[1..], t, Me(k).priority)
              && k.ready[0].item in k'.threads && k'.threads[k.ready[0].item].status == Running
    ensures OnlyThese(k, Next(k, DoYield), {k.cpu.value} + FrontOf(k.ready))
  {
    assert Is(k, k.cpu.value, OnCpu);
    if k.ready != [] {
      FrontIsThere(k, OnReady);
    }
  }

  /** A new thread is nowhere until it is forked, and then ready. */
  lemma WhatCreateDoes(k: State, t: Tid, name: string, priority: int)
    requires Inv(k) && Enabled(k, DoCreate(t, name, priority))
    ensures var k' := Next(k, DoCreate(t, name, priority));
            && t in k'.threads && k'.threads[t].name == name && k'.threads[t].priority == priority
            && k'.threads[t].status == JustCreated && k'.threads[t].holding == {} && OnNoQueue(k', t)
            && k'.cpu == k.cpu && k'.ready == k.ready && OnlyThese(k, k', {})
  {
    NextKeepsInv(k, DoCreate(t, name, priority));
    assert Is(Next(k, DoCreate(t, name, priority)), t, Nowhere);
  }

  lemma WhatForkDoes(k: State, t: Tid)
    requires Inv(k) && Enabled(k, DoFork(t))
    ensures var k' := Next(k, DoFork(t));
            && k'.cpu == k.cpu && t in k'.threads && k'.threads[t] == k.threads[t].(status := Ready)
            && k'.ready == SortedInsertion(k.ready, t, k.threads[t].priority) && OnlyThese(k, k', {t})
  {}

  /** An idle processor takes the front of the ready list. */
  lemma WhatEndIdleDoes(k: State)
    requires Inv(k) && Enabled(k, EndIdle)
    ensures HandsOver(Next(k, EndIdle), k.ready) && OnlyThese(k, Next(k, EndIdle), FrontOf(k.ready))
  {
    if k.ready != [] {
      FrontIsThere(k, OnReady);
    }
  }

  /** Wait: the caller gives up the lock, sleeps on the condition, and the processor goes to the front of the ready
    list, the lock's first waiter by now among them. */
  lemma WhatWaitDoes(k: State, c: nat, l: nat)
    requires Inv(k) && Enabled(k, DoWait(c, l))
    ensures var k', t, q := Next(k, DoWait(c, l)), k.cpu.value, k.locks[l].queue;
            && c in k'.conds && k'.conds[c] == SortedInsertion(k.conds[c], t, Me(k).priority)
            && l in k'.locks && !k'.locks[l].held && k'.locks[l].queue == (if q == [] then [] else q[1..])
            && t in k'.threads && k'.threads[t].status == Blocked && k'.threads[t].cont == InWait(c, l)
            && k'.threads[t].holding == Me(k).holding - {l}
            && (q == [] ==> HandsOver(k', k.ready))
            && (q != [] ==> q[0].item in k.threads
                            && HandsOver(k', SortedInsertion(k.ready, q[0].item, k.threads[q[0].item].priority)))
            && OnlyThese(k, k', {t} + FrontOf(q) + FrontOf(k.ready))
  {
    var k1 := StepRelease(k, l);
    WhatReleaseDoes(k, l);
    ReleaseKeepsInv(k, l);
    WaitIs(k, c, l);
    EnlistedHandsOver(k1, c, l);
  }

  lemma EnlistedHandsOver(k: State, c: nat, l: nat)
    requires Inv(k) && Runs(k) && c in k.conds
    ensures var k', t := Dispatch(Enlisted(k, c, l)), k.cpu.value;
            && Sleeps(k, k', InWait(c, l)) && OnlyThese(k, k', {t} + FrontOf(k.ready))
            && c in k'.conds && k'.conds[c] == SortedInsertion(k.conds[c], t, Me(k).priority) && k'.locks == k.locks
  {
    assert Is(k, k.cpu.value, OnCpu);
    if k.ready != [] {
      FrontIsThere(k, OnReady);
    }
  }

  // ---- Conditions ----

  /** Signal: the first waiter, if there is one, becomes ready. */
  lemma WhatSignalDoes(k: State, c: nat, l: nat)
    requires Inv(k) && Enabled(k, DoSignal(c, l))
    ensures var k', q := Next(k, DoSignal(c, l)), k.conds[c];
            && c in k'.conds && k'.conds[c] == (if q == [] then [] else q[1..])
            && WakesFront(k, k', q) && OnlyThese(k, k', FrontOf(q)) && k'.sems == k.sems && k'.locks == k.locks
  {
    if k.conds[c] != [] {
      FrontIsThere(k, OnCond(c));
    }
  }

  lemma {:induction false} BroadcastEffect(k: State, c: nat)
    requires Inv(k) && c in k.conds
    ensures var k' := StepBroadcast(k, c);
            && c in k'.conds && k'.conds[c] == [] && k'.cpu == k.cpu && k'.sems == k.sems && k'.locks == k.locks
            && k'.threads.Keys == k.threads.Keys
    ensures forall t :: t in k.threads ==>
              StepBroadcast(k, c).threads[t] ==
              if InQueue(k.conds[c], t) then k.threads[t].(status := Ready) else k.threads[t]
    decreases |k.conds[c]|
  {
    if k.conds[c] != [] {
      FrontIsThere(k, OnCond(c));
      SignalKeepsInv(k, c);
      var k1, u := StepSignal(k, c), k.conds[c][0].item;
      RemovalMembers(QueueAt(k, OnCond(c)));
      BroadcastEffect(k1, c);
      forall t | t in k.threads
        ensures StepBroadcast(k, c).threads[t] ==
                if InQueue(k.conds[c], t) then k.threads[t].(status := Ready) else k.threads[t]
      {
        assert InQueue(k1.conds[c], t) <==> InQueue(k.conds[c], t) && t != u;
        assert t == u ==> InQueue(k.conds[c], t);
      }
    }
  }

  /** Broadcast: all waiters become ready, and nobody else changes. */
  lemma WhatBroadcastDoes(k: State, c: nat, l: nat)
    requires Inv(k) && Enabled(k, DoBroadcast(c, l))
    ensures var k' := Next(k, DoBroadcast(c, l));
            && c in k'.conds && k'.conds[c] == [] && k'.cpu == k.cpu && k'.sems == k.sems && k'.locks == k.locks
            && k'.threads.Keys == k.threads.Keys
            && (forall t :: t in k.threads ==>
                  k'.threads[t] ==
                  if InQueue(k.conds[c], t) then k.threads[t].(status := Ready) else k.threads[t])
  {
    BroadcastEffect(k, c);
  }

  // ---- Priorities ----

  /** setPriority changes one thread's key to the negative of what it is given, and moves nobody. */
  lemma WhatSetPriorityDoes(k: State, t: Tid, newPriority: int)
    requires Inv(k) && Enabled(k, DoSetPriority(t, newPriority))
    ensures var k' := Next(k, DoSetPriority(t, newPriority));
            && t in k'.threads && k'.threads[t] == k.threads[t].(priority := -newPriority)
            && k' == k.(threads := k'.threads) && OnlyThese(k, k', {t})
  {}

  predicate Ahead(q: Queue, t: Tid, u: Tid) {
    exists i, j :: 0 <= i < j < |q| && q[i].item == t && q[j].item == u
  }

  lemma SmallerKeyIsAhead(q: Queue, i: nat, j: nat)
    requires QueueOk(q) && i < |q| && j < |q| && q[i].key < q[j].key
    ensures Ahead(q, q[i].item, q[j].item)
  {
    assert i < j;
  }

  lemma InsertedIsThere(q: Queue, t: Tid, key: int) returns (i: nat)
    ensures i < |SortedInsertion(q, t, key)| && SortedInsertion(q, t, key)[i] == Element(t, key)
  {
    i := Place(q, key, 0);
    InsertionIndex(q, t, key);
  }

  lemma InsertedStays(q: Queue, t: Tid, key: int, i: nat) returns (j: nat)
    requires i < |q|
    ensures j < |SortedInsertion(q, t, key)| && SortedInsertion(q, t, key)[j] == q[i]
  {
    j := if i < Place(q, key, 0) then i else i + 1;
    InsertionIndex(q, t, key);
  }

  /** Two threads made ready one after the other: the smaller key comes first, whoever came first. */
  lemma ForkedInOrder(k: State, x: Tid, y: Tid)
    requires Inv(k) && Enabled(k, DoFork(x)) && Enabled(Next(k, DoFork(x)), DoFork(y))
    requires x != y && y in k.threads && k.threads[x].priority != k.threads[y].priority
    ensures var q := Next(Next(k, DoFork(x)), DoFork(y)).ready;
            if k.threads[x].priority < k.threads[y].priority then Ahead(q, x, y) else Ahead(q, y, x)
  {
    var k1, key := Next(k, DoFork(x)), k.threads[y].priority;
    WhatForkDoes(k, x);
    NextKeepsInv(k, DoFork(x));
    WhatForkDoes(k1, y);
    NextKeepsInv(k1, DoFork(y));
    var i := InsertedIsThere(k.ready, x, k.threads[x].priority);
    var j := InsertedStays(k1.ready, y, key, i);
    var m := InsertedIsThere(k1.ready, y, key);
    var q := SortedInsertion(k1.ready, y, key);
    assert QueueOk(QueueAt(Next(k1, DoFork(y)), OnReady));
    if q[j].key < q[m].key {
      SmallerKeyIsAhead(q, j, m);
    } else {
      SmallerKeyIsAhead(q, m, j);
    }
  }

  predicate New(k: State, t: Tid) {
    t in k.threads && k.threads[t].status == JustCreated
  }

  /** Giving both their priorities. */
  lemma PrioritiesGiven(k: State, t: Tid, u: Tid, a: int, b: int)
    requires Inv(k) && Free(k) && New(k, t) && New(k, u) && t != u
    ensures var k' := Next(Next(k, DoSetPriority(t, a)), DoSetPriority(u, b));
            && Inv(k') && Free(k') && New(k', t) && New(k', u)
            && k'.threads[t].priority == -a && k'.threads[u].priority == -b
  {
    assert Is(k, k.cpu.value, OnCpu);
    NextKeepsInv(k, DoSetPriority(t, a));
    NextKeepsInv(Next(k, DoSetPriority(t, a)), DoSetPriority(u, b));
  }

  lemma ForkLeavesFree(k: State, x: Tid, y: Tid)
    requires Inv(k) && Free(k) && New(k, x) && New(k, y) && x != y
    ensures Enabled(k, DoFork(x)) && Enabled(Next(k, DoFork(x)), DoFork(y))
  {
    assert Is(k, k.cpu.value, OnCpu);
    WhatForkDoes(k, x);
  }

  /** Of two new threads the one with the higher priority is dispatched first, in whichever order they are forked. */
  lemma HigherPriorityRunsFirst(k: State, t: Tid, u: Tid, a: int, b: int, tFirst: bool)
    requires Inv(k) && Free(k) && New(k, t) && New(k, u) && t != u && a > b
    ensures var k1 := Next(Next(k, DoSetPriority(t, a)), DoSetPriority(u, b));
            var x, y := if tFirst then t else u, if tFirst then u else t;
            && Enabled(k1, DoFork(x)) && Enabled(Next(k1, DoFork(x)), DoFork(y))
            && Ahead(Next(Next(k1, DoFork(x)), DoFork(y)).ready, t, u)
  {
    var k1 := Next(Next(k, DoSetPriority(t, a)), DoSetPriority(u, b));
    var x, y := if tFirst then t else u, if tFirst then u else t;
    PrioritiesGiven(k, t, u, a, b);
    ForkLeavesFree(k1, x, y);
    ForkedInOrder(k1, x, y);
  }

  // ---- Finished for good ----

  ghost predicate Through(k: State, t: Tid) {
    t in k.threads && k.threads[t].cont == Finished && k.threads[t].status == Blocked
  }

  /** A finished thread neither runs nor is anywhere on a queue, so that no operation concerns it. */
  lemma ThroughIsNowhere(k: State, t: Tid)
    requires Inv(k) && Through(k, t)
    ensures k.cpu != Some(t) && OnNoQueue(k, t)
    ensures forall p :: Queues(p) ==> t !in FrontOf(QueueAt(k, p))
  {
    assert Is(k, t, Nowhere);
    forall p | Queues(p)
      ensures t !in FrontOf(QueueAt(k, p))
    {
      if QueueAt(k, p) != [] {
        FrontIsThere(k, p);
      }
    }
  }

  lemma OthersStayThrough(k: State, k': State, these: set<Tid>, t: Tid)
    requires OnlyThese(k, k', these) && t !in these && Through(k, t)
    ensures Through(k', t)
  {}

  lemma PLeavesThrough(k: State, a: Action, s: nat, t: Tid)
    requires Inv(k) && Enabled(k, a) && CallsP(k, a, s) && Through(k, t)
    ensures Through(Next(k, a), t)
  {
    ThroughIsNowhere(k, t);
    assert t !in FrontOf(QueueAt(k, OnReady));
    WhatPDoes(k, a, s);
    OthersStayThrough(k, Next(k, a), {k.cpu.value} + FrontOf(k.ready), t);
  }

  lemma VLeavesThrough(k: State, a: Action, s: nat, t: Tid)
    requires Inv(k) && Enabled(k, a) && CallsV(a, s) && Through(k, t)
    ensures Through(Next(k, a), t)
  {
    ThroughIsNowhere(k, t);
    WhatVDoes(k, a, s);
    assert t !in FrontOf(QueueAt(k, OnSem(s)));
    OthersStayThrough(k, Next(k, a), FrontOf(k.sems[s].queue), t);
  }

  lemma AcquireLeavesThrough(k: State, a: Action, l: nat, t: Tid)
    requires Inv(k) && Enabled(k, a) && CallsAcquire(k, a, l) && Through(k, t)
    ensures Through(Next(k, a), t)
  {
    ThroughIsNowhere(k, t);
    assert t !in FrontOf(QueueAt(k, OnReady));
    WhatAcquireDoes(k, a, l);
    OthersStayThrough(k, Next(k, a), {k.cpu.value} + FrontOf(k.ready), t);
  }

  lemma ReleaseLeavesThrough(k: State, l: nat, t: Tid)
    requires Inv(k) && Enabled(k, DoRelease(l)) && Through(k, t)
    ensures Through(Next(k, DoRelease(l)), t)
  {
    ThroughIsNowhere(k, t);
    WhatReleaseDoes(k, l);
    assert t !in FrontOf(QueueAt(k, OnLock(l)));
    OthersStayThrough(k, Next(k, DoRelease(l)), {k.cpu.value} + FrontOf(k.locks[l].queue), t);
  }

  lemma WaitLeavesThrough(k: State, c: nat, l: nat, t: Tid)
    requires Inv(k) && Enabled(k, DoWait(c, l)) && Through(k, t)
    ensures Through(Next(k, DoWait(c, l)), t)
  {
    ThroughIsNowhere(k, t);
    assert t !in FrontOf(QueueAt(k, OnReady));
    WhatWaitDoes(k, c, l);
    assert t !in FrontOf(QueueAt(k, OnLock(l)));
    OthersStayThrough(k, Next(k, DoWait(c, l)), {k.cpu.value} + FrontOf(k.locks[l].queue) + FrontOf(k.ready), t);
  }

  lemma SignalLeavesThrough(k: State, c: nat, l: nat, t: Tid)
    requires Inv(k) && Enabled(k, DoSignal(c, l)) && Through(k, t)
    ensures Through(Next(k, DoSignal(c, l)), t)
  {
    ThroughIsNowhere(k, t);
    WhatSignalDoes(k, c, l);
    assert t !in FrontOf(QueueAt(k, OnCond(c)));
    OthersStayThrough(k, Next(k, DoSignal(c, l)), FrontOf(k.conds[c]), t);
  }

  lemma BroadcastLeavesThrough(k: State, c: nat, l: nat, t: Tid)
    requires Inv(k) && Enabled(k, DoBroadcast(c, l)) && Through(k, t)
    ensures Through(Next(k, DoBroadcast(c, l)), t)
  {
    ThroughIsNowhere(k, t);
    WhatBroadcastDoes(k, c, l);
    assert !InQueue(QueueAt(k, OnCond(c)), t);
  }

  lemma SynchLeavesThrough(k: State, a: Action, t: Tid)
    requires Inv(k) && Enabled(k, a) && !IsScheduling(a) && Through(k, t)
    ensures Through(Next(k, a), t)
  {
    match a
    case DoP(s) => PLeavesThrough(k, a, s, t);
    case DoV(s) => VLeavesThrough(k, a, s, t);
    case InterruptV(s) => VLeavesThrough(k, a, s, t);
    case DoAcquire(l) => AcquireLeavesThrough(k, a, l, t);
    case DoRelease(l) => ReleaseLeavesThrough(k, l, t);
    case DoWait(c, l) => WaitLeavesThrough(k, c, l, t);
    case DoSignal(c, l) => SignalLeavesThrough(k, c, l, t);
    case DoBroadcast(c, l) => BroadcastLeavesThrough(k, c, l, t);
    case DoResume => ResumeLeavesThrough(k, t);
  }

  lemma ResumeLeavesThrough(k: State, t: Tid)
    requires Inv(k) && Enabled(k, DoResume) && Through(k, t)
    ensures Through(Next(k, DoResume), t)
  {
    assert Is(k, k.cpu.value, OnCpu);
    match Me(k).cont
    case InP(s) => PLeavesThrough(k, DoResume, s, t);
    case InAcquire(l) => AcquireLeavesThrough(k, DoResume, l, t);
    case InWait(_, l) => AcquireLeavesThrough(k, DoResume, l, t);
    case _ =>
  }

  lemma SchedulingLeavesThrough(k: State, a: Action, t: Tid)
    requires Inv(k) && Enabled(k, a) && IsScheduling(a) && Through(k, t)
    ensures Through(Next(k, a), t)
  {
    ThroughIsNowhere(k, t);
    assert t !in FrontOf(QueueAt(k, OnReady));
    match a
    case DoYield => WhatYieldDoes(k);
    case DoFinish => WhatFinishDoes(k);
    case DoCreate(u, name, priority) => WhatCreateDoes(k, u, name, priority);
    case DoFork(u) => WhatForkDoes(k, u);
    case DoSetPriority(u, newPriority) => WhatSetPriorityDoes(k, u, newPriority);
    case EndIdle => WhatEndIdleDoes(k);
  }

  lemma {:induction false} ThroughForGood(k: State, run: seq<Action>, k': State, t: Tid)
    requires Inv(k) && Through(k, t) && Reaches(k, run, k')
    ensures Inv(k') && Through(k', t)
    decreases |run|
  {
    if run != [] {
      NextKeepsInv(k, run[0]);
      if IsScheduling(run[0]) {
        SchedulingLeavesThrough(k, run[0], t);
      } else {
        SynchLeavesThrough(k, run[0], t);
      }
      ThroughForGood(Next(k, run[0]), run[1..], k', t);
    }
  }

  /** Whatever happens after a thread has finished, it never runs, and is never ready or waiting, again. */
  lemma FinishIsForGood(k: State, run: seq<Action>, k': State)
    requires Inv(k) && Free(k) && Reaches(Next(k, DoFinish), run, k')
    ensures var t := k.cpu.value; Through(k', t) && k'.cpu != Some(t) && OnNoQueue(k', t)
  {
    WhatFinishDoes(k);
    NextKeepsInv(k, DoFinish);
    ThroughForGood(Next(k, DoFinish), run, k', k.cpu.value);
    ThroughIsNowhere(k', k.cpu.value);
  }

  // ---- The processor is never idle while somebody is ready ----

  lemma SynchLeavesNobodyReady(k: State, a: Action)
    requires Inv(k) && Enabled(k, a) && !IsScheduling(a) && Runs(k)
    ensures Next(k, a).cpu == None ==> Next(k, a).ready == []
  {
    match a
    case DoP(s) => WhatPDoes(k, a, s);
    case DoV(s) => WhatVDoes(k, a, s);
    case InterruptV(s) => WhatVDoes(k, a, s);
    case DoAcquire(l) => WhatAcquireDoes(k, a, l);
    case DoRelease(l) => WhatReleaseDoes(k, l);
    case DoWait(c, l) => WhatWaitDoes(k, c, l);
    case DoSignal(c, l) => WhatSignalDoes(k, c, l);
    case DoBroadcast(c, l) => WhatBroadcastDoes(k, c, l);
    case DoResume => ResumeLeavesNobodyReady(k);
  }

  lemma ResumeLeavesNobodyReady(k: State)
    requires Inv(k) && Enabled(k, DoResume)
    ensures Next(k, DoResume).cpu == None ==> Next(k, DoResume).ready == []
  {
    match Me(k).cont
    case InP(s) => WhatPDoes(k, DoResume, s);
    case InAcquire(l) => WhatAcquireDoes(k, DoResume, l);
    case InWait(_, l) => WhatAcquireDoes(k, DoResume, l);
    case _ =>
  }

  /** No operation leaves the processor idle while somebody is ready. */
  lemma NobodyReadyIsLeftIdle(k: State, a: Action)
    requires Inv(k) && Enabled(k, a) && (k.cpu == None ==> k.ready == [] || a == EndIdle) && !a.InterruptV?
    ensures Next(k, a).cpu == None ==> Next(k, a).ready == []
  {
    if !IsScheduling(a) {
      SynchLeavesNobodyReady(k, a);
    } else {
      match a
      case DoYield => WhatYieldDoes(k);
      case DoFinish => WhatFinishDoes(k);
      case DoCreate(u, name, priority) => WhatCreateDoes(k, u, name, priority);
      case DoFork(u) => WhatForkDoes(k, u);
      case DoSetPriority(u, newPriority) => WhatSetPriorityDoes(k, u, newPriority);
      case EndIdle => WhatEndIdleDoes(k);
    }
  }
}
