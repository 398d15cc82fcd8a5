/** Thread::Join and Thread::Finish: one parent joins one child, both on the child's own lock and condition.

  A step is what runs without a chance for the other thread: from one point where interrupts come back on, or
  where the thread sleeps, to the next. In particular the parent's first step sets joinCalled, tests
  threadFinished and tries the lock. `SplitCall` is no such step: it cuts the first one in two, to show what
  depends on it. */
module Joining {
  datatype Parent = Calling | Called | AtLock | Holding | Asleep | Awake | Leaving | Returned | ReturnedAtOnce
  datatype Child = Working | Queued | Entered | Testing | Sleeping | Woken | Gone | Aborted
  datatype Holder = Nobody | TheParent | TheChild

  datatype State = State(joinCalled: bool, threadFinished: bool, finishedJoining: bool,
                         lock: Holder, parent: Parent, child: Child)

  const START := State(false, false, false, Nobody, Calling, Working)

  datatype Step = ParentRuns | ChildRuns | SplitCall

  // ---- The code ----

  predicate ParentReady(k: State) {
    match k.parent
    case Calling => true
    case Called => true
    case AtLock => k.lock == Nobody
    case Holding => true
    case Asleep => false
    case Awake => k.lock == Nobody
    case Leaving => true
    case Returned => false
    case ReturnedAtOnce => false
  }

  predicate ChildReady(k: State) {
    match k.child
    case Working => true
    case Queued => k.lock == Nobody
    case Entered => true
    case Testing => true
    case Sleeping => false
    case Woken => k.lock == Nobody
    case Gone => false
    case Aborted => false
  }

  /** A failed assertion stops the machine. */
  predicate Enabled(k: State, s: Step) {
    && k.child != Aborted
    && match s
       case ParentRuns => ParentReady(k)
       case ChildRuns => ChildReady(k)
       case SplitCall => k.parent == Calling
  }

  /** Lock::Acquire: in at once, or queued. */
  function ParentAcquires(k: State): State {
    if k.lock == Nobody then k.(lock := TheParent, parent := Holding) else k.(parent := AtLock)
  }

  /** Join from the test of threadFinished to its first possible switch. */
  function AfterCall(k: State): State {
    if k.threadFinished then k.(parent := ReturnedAtOnce) else ParentAcquires(k)
  }

  function ParentStep(k: State): State {
    match k.parent
    case Calling => AfterCall(k.(joinCalled := true))
    case Called => AfterCall(k)
    case AtLock => ParentAcquires(k)
    case Holding =>
      if !k.threadFinished then k.(lock := Nobody, parent := Asleep)
      else k.(finishedJoining := true, parent := Leaving, child := if k.child == Sleeping then Woken else k.child)
    case Awake => ParentAcquires(k)
    case Leaving => k.(lock := Nobody, parent := Returned)
    case _ => k
  }

  function ChildStep(k: State): State {
    match k.child
    case Working =>
      if !k.joinCalled then k.(child := Aborted)
      else if k.lock == Nobody then k.(lock := TheChild, child := Entered)
      else k.(child := Queued)
    case Queued => k.(lock := TheChild, child := Entered)
    case Entered => k.(threadFinished := true, child := Testing,
                       parent := if k.parent == Asleep then Awake else k.parent)
    case Testing =>
      if !k.finishedJoining then k.(lock := Nobody, child := Sleeping) else k.(lock := Nobody, child := Gone)
    case Woken => k.(lock := TheChild, child := Testing)
    case _ => k
  }

  function Next(k: State, s: Step): State
    requires Enabled(k, s)
  {
    match s
    case ParentRuns => ParentStep(k)
    case ChildRuns => ChildStep(k)
    case SplitCall => k.(joinCalled := true, parent := Called)
  }

  ghost predicate Reaches(k: State, run: seq<Step>, k': State)
    decreases |run|
  {
    if run == [] then k' == k else Enabled(k, run[0]) && Reaches(Next(k, run[0]), run[1..], k')
  }

  // ---- The invariant ----

  predicate Inv(k: State) {
    && (k.lock == TheParent <==> k.parent in {Holding, Leaving})
    && (k.lock == TheChild <==> k.child in {Entered, Testing})
    && (k.joinCalled <==> k.parent != Calling)
    && (k.threadFinished <==> k.child in {Testing, Sleeping, Woken, Gone})
    && (k.finishedJoining <==> k.parent in {Leaving, Returned})
    && (k.child in {Working, Aborted} || k.joinCalled)
    && (k.parent == Asleep ==> !k.threadFinished)
    && (k.parent in {Awake, Leaving, Returned, ReturnedAtOnce} ==> k.threadFinished)
    && (k.child == Sleeping ==> !k.finishedJoining)
    && (k.child in {Woken, Gone} ==> k.finishedJoining)
  }

  lemma {:induction false} RunKeepsInv(k: State, run: seq<Step>, k': State)
    requires Inv(k) && Reaches(k, run, k')
    ensures Inv(k')
    decreases |run|
  {
    if run != [] {
      RunKeepsInv(Next(k, run[0]), run[1..], k');
    }
  }

  /** For every schedule: Join returns only after the child has finished, the child gets away only after the
    parent has been told so, and the two never sleep at the same time. */
  lemma JoinIsSafe(run: seq<Step>, k: State)
    requires Reaches(START, run, k)
    ensures k.parent in {Returned, ReturnedAtOnce} ==> k.threadFinished
    ensures k.child == Gone ==> k.finishedJoining
    ensures !(k.parent == Asleep && k.child == Sleeping)
    ensures k.lock == TheParent ==> k.child !in {Entered, Testing}
  {
    RunKeepsInv(START, run, k);
  }

  // ---- Every schedule ends, and how ----

  /** Steps the parent has left to take, at most; only a finished child lets it pass the loop. */
  function ParentLeft(k: State): nat {
    match k.parent
    case Calling => 9
    case Called => 8
    case AtLock => 7
    case Holding => if k.threadFinished then 3 else 6
    case Asleep => 5
    case Awake => 4
    case Leaving => 2
    case Returned => 0
    case ReturnedAtOnce => 0
  }

  function ChildLeft(k: State): nat {
    match k.child
    case Working => 8
    case Queued => 7
    case Entered => 6
    case Testing => if k.finishedJoining then 2 else 5
    case Sleeping => 4
    case Woken => 3
    case Gone => 0
    case Aborted => 0
  }

  lemma {:induction false} EveryScheduleEnds(k: State, run: seq<Step>, k': State)
    requires Inv(k) && Reaches(k, run, k')
    ensures |run| + ParentLeft(k') + ChildLeft(k') <= ParentLeft(k) + ChildLeft(k)
    decreases |run|
  {
    if run != [] {
      assert Inv(Next(k, run[0]));
      EveryScheduleEnds(Next(k, run[0]), run[1..], k');
    }
  }

  predicate Stuck(k: State) {
    !Enabled(k, ParentRuns) && !Enabled(k, ChildRuns)
  }

  /** Steps of the real code only. */
  predicate Whole(run: seq<Step>) {
    SplitCall !in run
  }

  /** As long as the call is one step, Join never returns at once: threadFinished is still false there. */
  lemma {:induction false} NeverReturnsAtOnce(k: State, run: seq<Step>, k': State)
    requires Inv(k) && k.parent !in {Called, ReturnedAtOnce} && Reaches(k, run, k') && Whole(run)
    ensures k'.parent !in {Called, ReturnedAtOnce}
    decreases |run|
  {
    if run != [] {
      NeverReturnsAtOnce(Next(k, run[0]), run[1..], k');
    }
  }

  /** Every schedule of the real code ends, after at most 17 steps, with both threads through, or, exactly when
    the child came to its end before Join was called, with a failed assertion. */
  lemma JoinCompletes(run: seq<Step>, k: State)
    requires Reaches(START, run, k) && Whole(run)
    ensures |run| <= 17
    ensures Stuck(k) ==> if k.joinCalled then k.parent == Returned && k.child == Gone else k.child == Aborted
  {
    RunKeepsInv(START, run, k);
    EveryScheduleEnds(START, run, k);
    NeverReturnsAtOnce(START, run, k);
    AbortedEarly(START, run, k);
  }

  lemma {:induction false} AbortedEarly(k: State, run: seq<Step>, k': State)
    requires Inv(k) && (k.child == Aborted ==> !k.joinCalled) && Reaches(k, run, k')
    ensures k'.child == Aborted ==> !k'.joinCalled
    decreases |run|
  {
    if run != [] {
      AbortedEarly(Next(k, run[0]), run[1..], k');
    }
  }

  lemma StepThen(k: State, s: Step, run: seq<Step>, k': State)
    requires Enabled(k, s) && Reaches(Next(k, s), run, k')
    ensures Reaches(k, [s] + run, k')
  {
    assert ([s] + run)[1..] == run;
  }

  /** Both can get through: for example, the parent sleeps, the child finishes and sleeps, the parent comes back and
    returns, and the child goes. */
  lemma BothGetThrough()
    ensures exists run, k :: Reaches(START, run, k) && Whole(run) && k.parent == Returned && k.child == Gone
  {
    var k1 := Next(START, ParentRuns);
    var k2 := Next(k1, ParentRuns);
    var k3 := Next(k2, ChildRuns);
    var k4 := Next(k3, ChildRuns);
    var k5 := Next(k4, ChildRuns);
    var k6 := Next(k5, ParentRuns);
    var k7 := Next(k6, ParentRuns);
    var k8 := Next(k7, ParentRuns);
    var k9 := Next(k8, ChildRuns);
    var end := Next(k9, ChildRuns);
    var run: seq<Step> := [];
    StepThen(k9, ChildRuns, run, end);
    run := [ChildRuns] + run;
    StepThen(k8, ChildRuns, run, end);
    run := [ChildRuns] + run;
    StepThen(k7, ParentRuns, run, end);
    run := [ParentRuns] + run;
    StepThen(k6, ParentRuns, run, end);
    run := [ParentRuns] + run;
    StepThen(k5, ParentRuns, run, end);
    run := [ParentRuns] + run;
    StepThen(k4, ChildRuns, run, end);
    run := [ChildRuns] + run;
    StepThen(k3, ChildRuns, run, end);
    run := [ChildRuns] + run;
    StepThen(k2, ChildRuns, run, end);
    run := [ChildRuns] + run;
    StepThen(k1, ParentRuns, run, end);
    run := [ParentRuns] + run;
    StepThen(START, ParentRuns, run, end);
    run := [ParentRuns] + run;
    assert Reaches(START, run, end) && Whole(run);
  }

  /** And the assertion fails exactly in the runs that the child begins. */
  lemma AbortedExactlyWhenTheChildBegins(run: seq<Step>, k: State)
    requires Reaches(START, run, k)
    ensures k.child == Aborted <==> run != [] && run[0] == ChildRuns
  {
    if run != [] {
      OnlyTheFirstStepAborts(Next(START, run[0]), run[1..], k);
    }
  }

  lemma {:induction false} OnlyTheFirstStepAborts(k: State, run: seq<Step>, k': State)
    requires k.child == Aborted || k.joinCalled
    requires Reaches(k, run, k')
    ensures (k'.child == Aborted || k'.joinCalled) && (k'.child == Aborted <==> k.child == Aborted)
    decreases |run|
  {
    if run != [] {
      OnlyTheFirstStepAborts(Next(k, run[0]), run[1..], k');
    }
  }

  // ---- What the one step is for ----

  lemma {:induction false} PastTheCall(k: State, run: seq<Step>, k': State)
    requires Inv(k) && k.parent !in {Calling, Called, ReturnedAtOnce} && Reaches(k, run, k')
    ensures k'.parent != ReturnedAtOnce
    decreases |run|
  {
    if run != [] {
      PastTheCall(Next(k, run[0]), run[1..], k');
    }
  }

  lemma {:induction false} FinishedTooEarly(k: State, run: seq<Step>, k': State)
    requires k.parent in {Called, ReturnedAtOnce} && k.threadFinished && k.joinCalled && k.child != Aborted
    requires Reaches(k, run, k')
    ensures k'.parent in {Called, ReturnedAtOnce} && k'.child != Aborted
    decreases |run|
  {
    if run != [] {
      FinishedTooEarly(Next(k, run[0]), run[1..], k');
    }
  }

  /** With the call cut in two, Join returns at once, and a child is left asleep for good, exactly in the runs where
    the child takes two steps between the halves. */
  lemma OnlyReturningAtOnceLosesTheChild(run: seq<Step>, k: State)
    requires Reaches(START, run, k) && Stuck(k)
    ensures k.child == Sleeping <==> |run| >= 3 && run[0] == SplitCall && run[1] == ChildRuns && run[2] == ChildRuns
    ensures k.child == Sleeping <==> k.parent == ReturnedAtOnce
    ensures k.child in {Gone, Sleeping, Aborted}
  {
    RunKeepsInv(START, run, k);
    var k1 := Next(START, run[0]);
    if run[0] == ChildRuns {
      assert k1.child == Aborted && k == k1;
    } else if run[0] == ParentRuns {
      PastTheCall(k1, run[1..], k);
    } else {
      AfterTheFirstHalf(k1, run[1..], k);
    }
  }

  lemma AfterTheFirstHalf(k: State, run: seq<Step>, k': State)
    requires k == Next(START, SplitCall) && Reaches(k, run, k') && Stuck(k')
    ensures k'.parent == ReturnedAtOnce <==> |run| >= 2 && run[0] == ChildRuns && run[1] == ChildRuns
  {
    var k1, rest := Next(k, run[0]), run[1..];
    if run[0] == ParentRuns {
      PastTheCall(k1, rest, k');
    } else {
      var k2 := Next(k1, rest[0]);
      if rest[0] == ParentRuns {
        PastTheCall(k2, rest[1..], k');
      } else {
        FinishedTooEarly(k2, rest[1..], k');
      }
    }
  }

  /** And that can happen: the child gets through Finish between the two halves of the call. */
  lemma SplittingTheCallLosesTheChild()
    ensures exists run, k :: Reaches(START, run, k) && Stuck(k) && k.parent == ReturnedAtOnce && k.child == Sleeping
  {
    var k1 := Next(START, SplitCall);
    var k2 := Next(k1, ChildRuns);
    var k3 := Next(k2, ChildRuns);
    var k4 := Next(k3, ChildRuns);
    var k5 := Next(k4, ParentRuns);
    assert Reaches(k5, [], k5);
    assert [ParentRuns][1..] == [];
    assert Reaches(k4, [ParentRuns], k5);
    assert [ChildRuns, ParentRuns][1..] == [ParentRuns];
    assert Reaches(k3, [ChildRuns, ParentRuns], k5);
    assert [ChildRuns, ChildRuns, ParentRuns][1..] == [ChildRuns, ParentRuns];
    assert Reaches(k2, [ChildRuns, ChildRuns, ParentRuns], k5);
    assert [ChildRuns, ChildRuns, ChildRuns, ParentRuns][1..] == [ChildRuns, ChildRuns, ParentRuns];
    assert Reaches(k1, [ChildRuns, ChildRuns, ChildRuns, ParentRuns], k5);
    assert [SplitCall, ChildRuns, ChildRuns, ChildRuns, ParentRuns][1..]
        == [ChildRuns, ChildRuns, ChildRuns, ParentRuns];
    assert Reaches(START, [SplitCall, ChildRuns, ChildRuns, ChildRuns, ParentRuns], k5);
  }
}
