/** Semaphores and locks as the kernel keeps them: the state of one object and what one uninterrupted pass
  through its operations does to it.

  A thread that finds the semaphore or lock taken queues itself and sleeps inside a `while` loop; each turn
  of that loop is one pass. The kernel module runs these passes for any number of threads. */
module Synch {
  import opened Options
  import opened Lists
  import opened WaitLists

  type Queue = seq<Element<Tid>>

  /** Besides the source's fields: the initial value and how often P and V have completed. */
  datatype SemValue = SemValue(value: int, queue: Queue, initial: nat, vs: nat, ps: nat)

  /** The source knows a lock's holder by the holder's name alone. */
  datatype LockValue = LockValue(held: bool, owner: string, queue: Queue)

  /** One turn of P's loop: take a unit, or queue up. */
  function PPass(s: SemValue, t: Tid, priority: int): (SemValue, bool) {
    if s.value == 0 then (s.(queue := SortedInsertion(s.queue, t, priority)), false)
    else (s.(value := s.value - 1, ps := s.ps + 1), true)
  }

  function VStep(s: SemValue): (SemValue, Option<Tid>) {
    if s.queue == [] then (s.(value := s.value + 1, vs := s.vs + 1), None)
    else (s.(value := s.value + 1, vs := s.vs + 1, queue := s.queue[1..]), Some(s.queue[0].item))
  }

  predicate IsHeldBy(l: LockValue, name: string) {
    l.owner == name && l.held
  }

  /** One turn of Acquire's loop. */
  function AcquirePass(l: LockValue, t: Tid, name: string, priority: int): (LockValue, bool) {
    if l.held then (l.(queue := SortedInsertion(l.queue, t, priority)), false)
    else (l.(held := true, owner := name), true)
  }

  function ReleaseStep(l: LockValue): (LockValue, Option<Tid>) {
    if l.queue == [] then (l.(held := false), None)
    else (l.(held := false, queue := l.queue[1..]), Some(l.queue[0].item))
  }

  class Semaphore {
    var value: int
    const queue: List<Tid>
    ghost const initial: nat
    ghost var vs: nat
    ghost var ps: nat

    ghost predicate Valid()
      reads this, queue, queue.spine
    {
      queue.Valid()
    }

    ghost function Value(): SemValue
      reads this, queue
    {
      SemValue(value, queue.Contents(), initial, vs, ps)
    }

    constructor (initialValue: nat)
      ensures Valid() && fresh(queue)
      ensures Value() == SemValue(initialValue, [], initialValue, 0, 0)
    {
      value := initialValue;
      queue := new List();
      initial, vs, ps := initialValue, 0, 0;
    }

    /** What P does between two points where the caller can lose the processor. */
    method Pass(currentThread: Tid, priority: int) returns (done: bool)
      requires Valid()
      modifies this, queue, queue.spine
      ensures Valid()
      ensures (Value(), done) == PPass(old(Value()), currentThread, priority)
    {
      if value == 0 {
        queue.SortedInsert(currentThread, priority);
        return false;
      }
      value := value - 1;
      ps := ps + 1;
      return true;
    }

    method V() returns (woken: Option<Tid>)
      requires Valid()
      modifies this, queue
      ensures Valid()
      ensures (Value(), woken) == VStep(old(Value()))
    {
      var found, element := queue.SortedRemove();
      woken := if found then Some(element.front.item) else None;
      value := value + 1;
      vs := vs + 1;
    }
  }

  class Lock {
    var held: bool
    var threadName: string
    const queue: List<Tid>

    ghost predicate Valid()
      reads this, queue, queue.spine
    {
      queue.Valid()
    }

    ghost function Value(): LockValue
      reads this, queue
    {
      LockValue(held, threadName, queue.Contents())
    }

    constructor ()
      ensures Valid() && fresh(queue) && !held && queue.Contents() == []
    {
      held := false;
      queue := new List();
    }

    /** The two names have the same length and the same characters, and the lock is held. */
    method IsHeldByCurrentThread(name: string) returns (mine: bool)
      ensures mine <==> IsHeldBy(Value(), name)
    {
      if |threadName| != |name| {
        return false;
      }
      for i := 0 to |threadName|
        invariant threadName[..i] == name[..i]
      {
        if threadName[i] != name[i] {
          return false;
        }
      }
      return held;
    }

    method Pass(currentThread: Tid, name: string, priority: int) returns (done: bool)
      requires Valid()
      modifies this, queue, queue.spine
      ensures Valid()
      ensures (Value(), done) == AcquirePass(old(Value()), currentThread, name, priority)
    {
      if held {
        queue.SortedInsert(currentThread, priority);
        return false;
      }
      held, threadName := true, name;
      return true;
    }

    method Release(name: string) returns (woken: Option<Tid>)
      requires Valid() && IsHeldBy(Value(), name)
      modifies this, queue
      ensures Valid()
      ensures (Value(), woken) == ReleaseStep(old(Value()))
    {
      woken := None;
      if !queue.IsEmpty() {
        var found, element := queue.SortedRemove();
        woken := Some(element.front.item);
      }
      held := false;
    }
  }

  class Condition {
    const waitList: List<Tid>

    ghost predicate Valid()
      reads waitList, waitList.spine
    {
      waitList.Valid()
    }

    constructor ()
      ensures Valid() && fresh(waitList) && waitList.Contents() == []
    {
      waitList := new List();
    }

    /** The first half of Wait: queue up and let go of the lock, in one piece. */
    method Enlist(currentThread: Tid, name: string, priority: int, conditionLock: Lock) returns (woken: Option<Tid>)
      requires Valid() && conditionLock.Valid() && conditionLock.queue != waitList
      requires forall n :: n in conditionLock.queue.spine ==> n !in waitList.spine
      requires IsHeldBy(conditionLock.Value(), name)
      modifies waitList, waitList.spine, conditionLock, conditionLock.queue
      ensures Valid() && conditionLock.Valid()
      ensures waitList.Contents() == SortedInsertion(old(waitList.Contents()), currentThread, priority)
      ensures (conditionLock.Value(), woken) == ReleaseStep(old(conditionLock.Value()))
    {
      assert forall i :: 0 <= i < |conditionLock.queue.spine| ==>
        conditionLock.queue.spine[i] in conditionLock.queue.spine;
      waitList.SortedInsert(currentThread, priority);
      woken := conditionLock.Release(name);
    }

    method Signal() returns (woken: Option<Tid>)
      requires Valid()
      modifies waitList
      ensures Valid()
      ensures var q := old(waitList.Contents());
              if q == [] then woken == None && waitList.Contents() == []
              else woken == Some(q[0].item) && waitList.Contents() == q[1..]
    {
      woken := None;
      if !waitList.IsEmpty() {
        var found, element := waitList.SortedRemove();
        woken := Some(element.front.item);
      }
    }

    method Broadcast() returns (woken: seq<Tid>)
      requires Valid()
      modifies waitList
      ensures Valid() && waitList.Contents() == []
      ensures woken == Items(old(waitList.Contents()))
    {
      woken := [];
      ghost var q := waitList.Contents();
      var found, element := waitList.SortedRemove();
      while found
        invariant Valid()
        invariant found ==> element.Front? && Items(q) == woken + [element.front.item] + Items(waitList.Contents())
        invariant !found ==> waitList.Contents() == [] && Items(q) == woken
        decreases |waitList.Contents()|, found
      {
        woken := woken + [element.front.item];
        ghost var rest := waitList.Contents();
        found, element := waitList.SortedRemove();
        assert found ==> Items(rest) == [element.front.item] + Items(waitList.Contents());
      }
    }
  }

  function Items(q: Queue): (ts: seq<Tid>)
    ensures |ts| == |q|
  {
    if q == [] then [] else [q[0].item] + Items(q[1..])
  }
}
