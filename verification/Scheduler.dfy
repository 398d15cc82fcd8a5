/** The scheduler and the thread operations that drive it, over the linked ready list. Each method does to the
  fields what the kernel's transition system says. */
module Scheduling {
  import opened Options
  import opened Lists
  import opened Synch
  import opened WaitLists
  import opened Kernel

  class Scheduler {
    var threads: map<Tid, Thread>
    const readyList: List<Tid>
    var currentThread: Option<Tid>

    ghost predicate Valid()
      reads this, readyList, readyList.spine
    {
      && readyList.Valid()
      && (currentThread.Some? ==> currentThread.value in threads)
      && (forall i :: 0 <= i < |readyList.Contents()| ==> readyList.Contents()[i].item in threads)
    }

    /** What the scheduler knows of the machine: threads, ready list and processor. */
    ghost function Machine(): State
      reads this, readyList
    {
      State(threads, readyList.Contents(), currentThread, map[], map[], map[])
    }

    constructor ()
      ensures Valid() && Machine() == State(map[], [], None, map[], map[], map[]) && fresh(readyList)
    {
      threads := map[];
      readyList := new List();
      currentThread := None;
    }

    method SetStatus(t: Tid, status: Status)
      requires t in threads
      modifies `threads
      ensures threads == old(threads)[t := old(threads)[t].(status := status)]
    {
      threads := threads[t := threads[t].(status := status)];
    }

    method ReadyToRun(t: Tid)
      requires Valid() && t in threads
      modifies `threads, readyList, readyList.spine
      ensures Valid()
      ensures Machine() == Kernel.ReadyToRun(old(Machine()), t)
    {
      SetStatus(t, Ready);
      InsertionItems(readyList.Contents(), t, threads[t].priority);
      readyList.SortedInsert(t, threads[t].priority);
    }

    /** Takes the front of the ready list off it, if there is one. */
    method FindNextToRun() returns (next: Option<Tid>)
      requires Valid()
      modifies readyList
      ensures Valid()
      ensures next == (if old(Machine()).ready == [] then None else Some(old(Machine()).ready[0].item))
      ensures Machine() == old(Machine()).(ready := if next == None then [] else old(Machine()).ready[1..])
      ensures readyList.spine == (if old(readyList.spine) == [] then [] else old(readyList.spine)[1..])
      ensures next.Some? ==> next.value in threads
    {
      var found, element := readyList.SortedRemove();
      next := if found then Some(element.front.item) else None;
    }

    method Run(next: Tid)
      requires Valid() && next in threads
      modifies `threads, `currentThread
      ensures Valid()
      ensures Machine() == old(Machine()).(cpu := Some(next),
                                           threads := old(threads)[next := old(threads)[next].(status := Running)])
    {
      currentThread := Some(next);
      SetStatus(next, Running);
    }

    /** Gives the processor to the best ready thread, with the caller queued behind its equals; nothing happens
      if nobody is ready. */
    method Yield()
      requires Valid() && currentThread.Some?
      modifies this, readyList, readyList.spine
      ensures Valid()
      ensures Machine() == Yielded(old(Machine()))
    {
      var me := currentThread.value;
      var next := FindNextToRun();
      if next.Some? {
        ReadyToRun(me);
        Run(next.value);
      }
    }

    /** Up to the point where another thread runs; without a ready thread the processor idles. */
    method Sleep(cont: Continuation)
      requires Valid() && currentThread.Some?
      modifies this, readyList
      ensures Valid()
      ensures Machine() == Dispatch(Suspended(old(Machine()), cont))
    {
      var me := currentThread.value;
      threads := threads[me := threads[me].(status := Blocked, cont := cont)];
      var next := FindNextToRun();
      if next.Some? {
        Run(next.value);
      } else {
        currentThread := None;
      }
    }

    method SetPriority(t: Tid, newPriority: int)
      requires Valid() && t in threads
      modifies `threads
      ensures Valid()
      ensures Machine() == StepSetPriority(old(Machine()), t, newPriority)
    {
      threads := threads[t := threads[t].(priority := -newPriority)];
    }
  }

  lemma InsertionItems(q: Queue, t: Tid, key: int)
    ensures forall i :: 0 <= i < |q| + 1 ==>
              SortedInsertion(q, t, key)[i].item == t
              || exists j :: 0 <= j < |q| && SortedInsertion(q, t, key)[i] == q[j]
  {
    var p, r := Place(q, key, 0), SortedInsertion(q, t, key);
    forall i | 0 <= i < |q| + 1
      ensures r[i].item == t || exists j :: 0 <= j < |q| && r[i] == q[j]
    {
      if i != p {
        assert r[i] == q[if i < p then i else i - 1];
      }
    }
  }

  /** Yield in its own order: next thread off the list, caller onto it, then the switch. */
  function Yielded(k: State): State
    requires Runs(k)
  {
    if k.ready == [] || k.ready[0].item !in k.threads then k
    else
      var k1 := Kernel.ReadyToRun(k.(ready := k.ready[1..]), k.cpu.value);
      var next := k.ready[0].item;
      k1.(cpu := Some(next),
          threads := if next in k1.threads then k1.threads[next := k1.threads[next].(status := Running)]
                     else k1.threads)
  }

  lemma UpdatesCommute(m: map<Tid, Thread>, t: Tid, u: Tid, a: Thread, b: Thread)
    requires t != u
    ensures m[t := a][u := b] == m[u := b][t := a]
  {}

  /** That order makes no difference: it is the kernel's Yield, since the caller is not itself on the list. */
  lemma YieldOrder(k: State)
    requires Placed(k) && Runs(k)
    ensures Yielded(k) == StepYield(k)
  {
    if k.ready != [] {
      FrontIsThere(k, OnReady);
      var t, u := k.cpu.value, k.ready[0].item;
      assert Is(k, t, OnCpu) && Is(k, u, OnReady);
      UpdatesCommute(k.threads, t, u, k.threads[t].(status := Ready), k.threads[u].(status := Running));
      YieldOrderOf(k, t, u);
    }
  }

  lemma YieldOrderOf(k: State, t: Tid, u: Tid)
    requires Runs(k) && t == k.cpu.value && k.ready != [] && u == k.ready[0].item && u in k.threads && t != u
    requires k.threads[t := k.threads[t].(status := Ready)][u := k.threads[u].(status := Running)]
          == k.threads[u := k.threads[u].(status := Running)][t := k.threads[t].(status := Ready)]
    ensures Yielded(k) == StepYield(k)
  {}
}
