/** The whale-mating monitor: males, females and matchmakers arrive in any number and any order, each waits until
  it is one of a triplet.

  As in the mailbox, a lock can be taken only when it is free, Wait gives it up and queues the caller in one
  step, and any thread may run between any two statements. */
module Whales {
  import opened Options
  import opened WaitLists
  import opened Counting

  datatype Kind = Male | Female | Matchmaker

  /** One value for each kind of whale. */
  datatype Per<T> = Per(male: T, female: T, matchmaker: T) {
    function Of(kind: Kind): T {
      match kind
      case Male => male
      case Female => female
      case Matchmaker => matchmaker
    }

    function With(kind: Kind, x: T): Per<T> {
      match kind
      case Male => this.(male := x)
      case Female => this.(female := x)
      case Matchmaker => this.(matchmaker := x)
    }
  }

  /** The next thing a whale does. */
  datatype Pc = AtLock | Entered | Deciding | Waiting | Woken | Matched | Leaving | Gone

  datatype Whale = Whale(kind: Kind, pc: Pc)

  datatype State = State(whales: map<Tid, Whale>, lock: Option<Tid>, num: Per<int>, cv: Per<seq<Tid>>,
                         tripletsMade: int, tripletsCounter: int)

  datatype Action = Arrive(t: Tid, kind: Kind) | Step(t: Tid, place: nat)

  // ---- The code ----

  predicate Ready(k: State, w: Whale) {
    match w.pc
    case AtLock => k.lock == None
    case Woken => k.lock == None
    case Waiting => false
    case Gone => false
    case _ => true
  }

  predicate Enabled(k: State, a: Action) {
    match a
    case Arrive(t, _) => t !in k.whales
    case Step(t, place) => Stepping(k, t, place)
  }

  predicate Stepping(k: State, t: Tid, place: nat) {
    t in k.whales && Ready(k, k.whales[t]) && place <= |k.cv.Of(k.whales[t].kind)|
  }

  function At(k: State, t: Tid, pc: Pc): State
    requires t in k.whales
  {
    k.(whales := k.whales[t := k.whales[t].(pc := pc)])
  }

  /** Condition::Signal on the list of one kind. */
  function Signalled(k: State, kind: Kind): State {
    var q := k.cv.Of(kind);
    if q == [] || q[0] !in k.whales then k else At(k, q[0], Woken).(cv := k.cv.With(kind, q[1..]))
  }

  function Others(kind: Kind): (Kind, Kind) {
    match kind
    case Male => (Female, Matchmaker)
    case Female => (Male, Matchmaker)
    case Matchmaker => (Male, Female)
  }

  /** A whale waits if it is, in its kind, beyond the number of one of the other kinds. */
  predicate MustWait(k: State, kind: Kind) {
    var (a, b) := Others(kind);
    k.num.Of(a) < k.num.Of(kind) || k.num.Of(b) < k.num.Of(kind)
  }

  function Next(k: State, a: Action): State
    requires Enabled(k, a)
  {
    match a
    case Arrive(t, kind) => k.(whales := k.whales[t := Whale(kind, AtLock)])
    case Step(t, place) => NextOf(k, t, place)
  }

  function NextOf(k: State, t: Tid, place: nat): State
    requires t in k.whales && place <= |k.cv.Of(k.whales[t].kind)|
  {
    var kind := k.whales[t].kind;
    match k.whales[t].pc
    case AtLock => At(k, t, Entered).(lock := Some(t))
    case Entered => At(k, t, Deciding).(num := k.num.With(kind, k.num.Of(kind) + 1))
    case Deciding =>
      if MustWait(k, kind) then
        At(k, t, Waiting).(lock := None, cv := k.cv.With(kind, Inserted(k.cv.Of(kind), t, place)))
      else Signalled(Signalled(At(k, t, Matched), Others(kind).0), Others(kind).1)
    case Woken => At(k, t, Matched).(lock := Some(t))
    case Matched => At(k, t, Leaving).(tripletsMade := k.tripletsMade + 1, tripletsCounter := (k.tripletsMade + 1) / 3)
    case Leaving => At(k, t, Gone).(lock := None)
    case _ => k
  }

  // ---- Counting whales ----

  datatype Class = All(kind: Kind) | Counted(kind: Kind) | Released(kind: Kind) | Recorded | Pending

  predicate PastGate(pc: Pc) {
    pc in {Woken, Matched, Leaving, Gone}
  }

  predicate Belongs(w: Whale, c: Class) {
    match c
    case All(kind) => w.kind == kind
    case Counted(kind) => w.kind == kind && w.pc != AtLock && w.pc != Entered
    case Released(kind) => w.kind == kind && PastGate(w.pc)
    case Recorded => w.pc in {Leaving, Gone}
    case Pending => w.pc in {Woken, Matched}
  }

  function Those(k: State, c: Class): set<Tid> {
    set t | t in k.whales && Belongs(k.whales[t], c)
  }

  function Count(k: State, c: Class): nat {
    |Those(k, c)|
  }

  /** Only whale `t` differs. */
  ghost predicate OnlyChanged(k: State, k': State, t: Tid) {
    t in k'.whales && k'.whales == k.whales[t := k'.whales[t]]
  }

  lemma CountAfter(k: State, k': State, t: Tid, c: Class)
    requires OnlyChanged(k, k', t)
    ensures Count(k', c) ==
            Count(k, c) - One(t in k.whales && Belongs(k.whales[t], c)) + One(Belongs(k'.whales[t], c))
  {
    var a, b := Those(k, c), Those(k', c);
    forall u | u != t
      ensures u in a <==> u in b
    {
      assert u in k.whales <==> u in k'.whales;
    }
    SizeAfter(a, b, t);
  }

  /** Whale `t` goes from one pc to another. */
  ghost predicate Moves(k: State, k': State, t: Tid) {
    && t in k.whales && t in k'.whales
    && k'.whales == k.whales[t := k.whales[t].(pc := k'.whales[t].pc)]
  }

  // ---- The invariant ----

  predicate Is(k: State, t: Tid, pc: Pc) {
    t in k.whales && k.whales[t].pc == pc
  }

  predicate WaitsAs(k: State, t: Tid, kind: Kind) {
    t in k.whales && k.whales[t] == Whale(kind, Waiting)
  }

  predicate HoldsLock(pc: Pc) {
    pc in {Entered, Deciding, Matched, Leaving}
  }

  ghost predicate PlacesOk(k: State) {
    && (forall t :: t in k.whales && HoldsLock(k.whales[t].pc) <==> k.lock == Some(t))
    && (forall kind, t :: t in k.cv.Of(kind) <==> WaitsAs(k, t, kind))
    && (forall kind :: NoRepeats(k.cv.Of(kind)))
  }

  /** The whale inside has counted itself but not yet decided. */
  predicate Undecided(k: State, kind: Kind) {
    k.lock.Some? && k.lock.value in k.whales && k.whales[k.lock.value] == Whale(kind, Deciding)
  }

  /** Arrivals of a kind that have waited or matched. */
  function Decided(k: State, kind: Kind): int {
    k.num.Of(kind) - One(Undecided(k, kind))
  }

  function Min3(a: int, b: int, c: int): int {
    if a <= b && a <= c then a else if b <= c then b else c
  }

  /** How many triplets the arrivals so far make. */
  function Triplets(k: State): int {
    Min3(Decided(k, Male), Decided(k, Female), Decided(k, Matchmaker))
  }

  /** The surplus of each kind waits, and as many of each kind have been released. */
  ghost predicate GateOk(k: State) {
    forall kind :: |k.cv.Of(kind)| == Decided(k, kind) - Triplets(k)
  }

  ghost predicate CountsOk(k: State) {
    && (forall kind :: k.num.Of(kind) == Count(k, Counted(kind)))
    && (forall kind :: Count(k, Released(kind)) == Triplets(k))
  }

  ghost predicate TalliesOk(k: State) {
    && k.tripletsMade == Count(k, Recorded)
    && k.tripletsCounter == k.tripletsMade / 3
    && k.tripletsMade + Count(k, Pending) == 3 * Triplets(k)
  }

  ghost predicate Inv(k: State) {
    PlacesOk(k) && GateOk(k) && CountsOk(k) && TalliesOk(k)
  }

  // ---- Every step keeps it ----

  ghost predicate GateInv(k: State) {
    PlacesOk(k) && GateOk(k)
  }

  predicate SameNumbers(k: State, k': State) {
    k'.num == k.num && k'.tripletsMade == k.tripletsMade && k'.tripletsCounter == k.tripletsCounter
  }

  /** A whale that need not wait finds one of each other kind waiting. */
  lemma PartnersWait(k: State, t: Tid)
    requires GateInv(k) && Is(k, t, Deciding) && !MustWait(k, k.whales[t].kind)
    ensures var (a, b) := Others(k.whales[t].kind);
            && k.cv.Of(a) != [] && WaitsAs(k, k.cv.Of(a)[0], a)
            && k.cv.Of(b) != [] && WaitsAs(k, k.cv.Of(b)[0], b)
  {
    var (a, b) := Others(k.whales[t].kind);
    assert Undecided(k, k.whales[t].kind) && !Undecided(k, a) && !Undecided(k, b);
    assert |k.cv.Of(a)| == Decided(k, a) - Triplets(k) && |k.cv.Of(b)| == Decided(k, b) - Triplets(k);
    assert k.cv.Of(a)[0] in k.cv.Of(a) && k.cv.Of(b)[0] in k.cv.Of(b);
  }

  /** The three moves of a match: the whale itself and the two it wakes. */
  ghost predicate Match(k: State, k1: State, k2: State, k': State, t: Tid, u: Tid, v: Tid) {
    && Moves(k, k1, t) && Moves(k1, k2, u) && Moves(k2, k', v) && t != u && t != v && u != v
    && Is(k, t, Deciding) && Is(k', t, Matched)
    && WaitsAs(k, u, Others(k.whales[t].kind).0) && Is(k', u, Woken)
    && WaitsAs(k, v, Others(k.whales[t].kind).1) && Is(k', v, Woken)
    && SameNumbers(k, k') && k'.lock == k.lock && k.lock == Some(t)
  }

  lemma MatchEffect(k: State, t: Tid, place: nat)
    requires GateInv(k) && Is(k, t, Deciding) && !MustWait(k, k.whales[t].kind) && Stepping(k, t, place)
    ensures var (a, b) := Others(k.whales[t].kind);
            && k.cv.Of(a) != [] && k.cv.Of(b) != []
            && Match(k, At(k, t, Matched), Signalled(At(k, t, Matched), a), NextOf(k, t, place),
                     t, k.cv.Of(a)[0], k.cv.Of(b)[0])
            && NextOf(k, t, place).cv == k.cv.With(a, k.cv.Of(a)[1..]).With(b, k.cv.Of(b)[1..])
  {
    PartnersWait(k, t);
  }

  lemma MatchKeepsPlaces(k: State, k1: State, k2: State, k': State, t: Tid, u: Tid, v: Tid)
    requires PlacesOk(k) && Match(k, k1, k2, k', t, u, v)
    requires var (a, b) := Others(k.whales[t].kind);
             && k.cv.Of(a) != [] && k.cv.Of(b) != [] && k.cv.Of(a)[0] == u && k.cv.Of(b)[0] == v
             && k'.cv == k.cv.With(a, k.cv.Of(a)[1..]).With(b, k.cv.Of(b)[1..])
    ensures PlacesOk(k')
  {
    var (a, b) := Others(k.whales[t].kind);
    DropFirst(k.cv.Of(a));
    DropFirst(k.cv.Of(b));
    forall kind
      ensures NoRepeats(k'.cv.Of(kind))
      ensures forall w :: w in k'.cv.Of(kind) <==> WaitsAs(k', w, kind)
    {
      assert NoRepeats(k.cv.Of(kind));
      assert k'.cv.Of(kind) == if kind == a || kind == b then k.cv.Of(kind)[1..] else k.cv.Of(kind);
      assert forall w :: WaitsAs(k', w, kind) <==> WaitsAs(k, w, kind) && w != u && w != v;
    }
  }

  /** A match makes one more triplet. */
  lemma MatchTriplets(k: State, k': State, t: Tid)
    requires Is(k, t, Deciding) && Is(k', t, Matched) && k.lock == Some(t) && k'.lock == k.lock && k'.num == k.num
    requires k'.whales[t].kind == k.whales[t].kind && !MustWait(k, k.whales[t].kind)
    requires forall kind :: Decided(k, kind) >= Triplets(k)
    ensures Triplets(k') == Triplets(k) + 1
    ensures forall kind :: Decided(k', kind) == Decided(k, kind) + One(kind == k.whales[t].kind)
  {
    forall kind
      ensures Decided(k', kind) == Decided(k, kind) + One(kind == k.whales[t].kind)
    {
    }
  }

  lemma MatchCount(k: State, k1: State, k2: State, k': State, t: Tid, u: Tid, v: Tid, c: Class)
    requires Match(k, k1, k2, k', t, u, v)
    ensures Count(k', c) == Count(k, c) - One(Belongs(k.whales[t], c)) + One(Belongs(k'.whales[t], c))
                                        - One(Belongs(k.whales[u], c)) + One(Belongs(k'.whales[u], c))
                                        - One(Belongs(k.whales[v], c)) + One(Belongs(k'.whales[v], c))
  {
    CountAfter(k, k1, t, c);
    CountAfter(k1, k2, u, c);
    CountAfter(k2, k', v, c);
  }

  lemma MatchKeepsCounts(k: State, k1: State, k2: State, k': State, t: Tid, u: Tid, v: Tid)
    requires CountsOk(k) && Match(k, k1, k2, k', t, u, v) && Triplets(k') == Triplets(k) + 1
    ensures CountsOk(k')
  {
    forall kind
      ensures k'.num.Of(kind) == Count(k', Counted(kind)) && Count(k', Released(kind)) == Triplets(k')
    {
      assert k.num.Of(kind) == Count(k, Counted(kind)) && Count(k, Released(kind)) == Triplets(k);
      MatchCount(k, k1, k2, k', t, u, v, Counted(kind));
      MatchCount(k, k1, k2, k', t, u, v, Released(kind));
    }
  }

  lemma MatchKeepsTallies(k: State, k1: State, k2: State, k': State, t: Tid, u: Tid, v: Tid)
    requires TalliesOk(k) && Match(k, k1, k2, k', t, u, v) && Triplets(k') == Triplets(k) + 1
    ensures TalliesOk(k')
  {
    MatchCount(k, k1, k2, k', t, u, v, Recorded);
    MatchCount(k, k1, k2, k', t, u, v, Pending);
  }

  lemma MatchKeepsGate(k: State, t: Tid, place: nat)
    requires GateInv(k) && Is(k, t, Deciding) && !MustWait(k, k.whales[t].kind) && Stepping(k, t, place)
    ensures GateInv(NextOf(k, t, place)) && Triplets(NextOf(k, t, place)) == Triplets(k) + 1
  {
    var (a, b) := Others(k.whales[t].kind);
    var k1, k' := At(k, t, Matched), NextOf(k, t, place);
    MatchEffect(k, t, place);
    MatchKeepsPlaces(k, k1, Signalled(k1, a), k', t, k.cv.Of(a)[0], k.cv.Of(b)[0]);
    assert forall kind :: |k.cv.Of(kind)| == Decided(k, kind) - Triplets(k);
    MatchTriplets(k, k', t);
  }

  lemma MatchKeepsInv(k: State, t: Tid, place: nat)
    requires Inv(k) && Is(k, t, Deciding) && !MustWait(k, k.whales[t].kind) && Stepping(k, t, place)
    ensures Inv(NextOf(k, t, place))
  {
    var (a, b) := Others(k.whales[t].kind);
    MatchKeepsGate(k, t, place);
    MatchEffect(k, t, place);
    var k1, k', u, v := At(k, t, Matched), NextOf(k, t, place), k.cv.Of(a)[0], k.cv.Of(b)[0];
    MatchKeepsCounts(k, k1, Signalled(k1, a), k', t, u, v);
    MatchKeepsTallies(k, k1, Signalled(k1, a), k', t, u, v);
  }

  lemma WaitKeepsPlaces(k: State, t: Tid, place: nat)
    requires PlacesOk(k) && Is(k, t, Deciding) && MustWait(k, k.whales[t].kind) && Stepping(k, t, place)
    ensures PlacesOk(NextOf(k, t, place))
  {
    var k', own := NextOf(k, t, place), k.whales[t].kind;
    InsertMembers(k.cv.Of(own), t, place);
    forall kind
      ensures NoRepeats(k'.cv.Of(kind))
      ensures forall w :: w in k'.cv.Of(kind) <==> WaitsAs(k', w, kind)
    {
      assert NoRepeats(k.cv.Of(kind));
      assert k'.cv.Of(kind) == if kind == own then Inserted(k.cv.Of(own), t, place) else k.cv.Of(kind);
      assert forall w :: WaitsAs(k', w, kind) <==> WaitsAs(k, w, kind) || (w == t && kind == own);
    }
  }

  lemma WaitKeepsGate(k: State, t: Tid, place: nat)
    requires GateInv(k) && Is(k, t, Deciding) && MustWait(k, k.whales[t].kind) && Stepping(k, t, place)
    ensures GateInv(NextOf(k, t, place)) && Triplets(NextOf(k, t, place)) == Triplets(k)
  {
    WaitKeepsPlaces(k, t, place);
    assert forall kind :: |k.cv.Of(kind)| == Decided(k, kind) - Triplets(k);
    assert forall kind :: Decided(NextOf(k, t, place), kind) == Decided(k, kind) + One(kind == k.whales[t].kind);
  }

  lemma OtherKeepsGate(k: State, t: Tid, place: nat)
    requires GateInv(k) && Stepping(k, t, place) && !Is(k, t, Deciding)
    ensures GateInv(NextOf(k, t, place)) && Triplets(NextOf(k, t, place)) == Triplets(k)
  {
    assert forall kind :: |k.cv.Of(kind)| == Decided(k, kind) - Triplets(k);
    assert forall kind :: Decided(NextOf(k, t, place), kind) == Decided(k, kind);
  }

  /** Without a match, the counts change by one whale's move. */
  lemma OneKeepsCounts(k: State, t: Tid, place: nat)
    requires CountsOk(k) && Stepping(k, t, place) && (Is(k, t, Deciding) ==> MustWait(k, k.whales[t].kind))
    requires Triplets(NextOf(k, t, place)) == Triplets(k)
    ensures CountsOk(NextOf(k, t, place))
  {
    var k' := NextOf(k, t, place);
    forall kind
      ensures k'.num.Of(kind) == Count(k', Counted(kind)) && Count(k', Released(kind)) == Triplets(k')
    {
      assert k.num.Of(kind) == Count(k, Counted(kind)) && Count(k, Released(kind)) == Triplets(k);
      CountAfter(k, k', t, Counted(kind));
      CountAfter(k, k', t, Released(kind));
    }
  }

  lemma OneKeepsTallies(k: State, t: Tid, place: nat)
    requires TalliesOk(k) && Stepping(k, t, place) && (Is(k, t, Deciding) ==> MustWait(k, k.whales[t].kind))
    requires Triplets(NextOf(k, t, place)) == Triplets(k)
    ensures TalliesOk(NextOf(k, t, place))
  {
    CountAfter(k, NextOf(k, t, place), t, Recorded);
    CountAfter(k, NextOf(k, t, place), t, Pending);
  }

  lemma ArrivalKeepsInv(k: State, t: Tid, kind: Kind)
    requires Inv(k) && t !in k.whales
    ensures Inv(Next(k, Arrive(t, kind)))
  {
    var k' := Next(k, Arrive(t, kind));
    forall c
      ensures Count(k', c) == Count(k, c) + One(Belongs(k'.whales[t], c))
    {
      CountAfter(k, k', t, c);
    }
    assert forall kd :: |k.cv.Of(kd)| == Decided(k, kd) - Triplets(k);
    assert forall kd :: Decided(k', kd) == Decided(k, kd);
  }

  lemma NextKeepsInv(k: State, a: Action)
    requires Inv(k) && Enabled(k, a)
    ensures Inv(Next(k, a))
  {
    match a
    case Arrive(t, kind) => ArrivalKeepsInv(k, t, kind);
    case Step(t, place) =>
      if Is(k, t, Deciding) && !MustWait(k, k.whales[t].kind) {
        MatchKeepsInv(k, t, place);
      } else {
        if Is(k, t, Deciding) {
          WaitKeepsGate(k, t, place);
        } else {
          OtherKeepsGate(k, t, place);
        }
        OneKeepsCounts(k, t, place);
        OneKeepsTallies(k, t, place);
      }
  }

  // ---- Runs ----

  predicate Start(k: State) {
    && k.whales == map[] && k.lock == None && k.num == Per(0, 0, 0) && k.cv == Per([], [], [])
    && k.tripletsMade == 0 && k.tripletsCounter == 0
  }

  ghost predicate Reaches(k: State, run: seq<Action>, k': State)
    decreases |run|
  {
    if run == [] then k' == k else Enabled(k, run[0]) && Reaches(Next(k, run[0]), run[1..], k')
  }

  lemma {:induction false} RunKeepsInv(k: State, run: seq<Action>, k': State)
    requires Inv(k) && Reaches(k, run, k')
    ensures Inv(k')
    decreases |run|
  {
    if run != [] {
      NextKeepsInv(k, run[0]);
      RunKeepsInv(Next(k, run[0]), run[1..], k');
    }
  }

  lemma StartHasInv(k: State)
    requires Start(k)
    ensures Inv(k)
  {
    forall c
      ensures Count(k, c) == 0
    {
      assert Those(k, c) == {};
    }
    assert forall kind :: k.num.Of(kind) == 0 && k.cv.Of(kind) == [];
    assert Triplets(k) == 0;
  }

  lemma ReachableHasInv(start: State, run: seq<Action>, k: State)
    requires Start(start) && Reaches(start, run, k)
    ensures Inv(k)
  {
    StartHasInv(start);
    RunKeepsInv(start, run, k);
  }

  /** In every run: with M, F and K whales of each kind that have decided and t = min(M, F, K), the waiting ones
    are M - t, F - t and K - t, exactly t of each kind have been released, and the counter has not run ahead: it
    is below t exactly while released whales have still to be recorded. */
  lemma TripletsMatchExactly(start: State, run: seq<Action>, k: State)
    requires Start(start) && Reaches(start, run, k)
    ensures forall kind :: |k.cv.Of(kind)| == Decided(k, kind) - Triplets(k)
    ensures forall kind :: Count(k, Released(kind)) == Triplets(k)
    ensures k.tripletsMade + Count(k, Pending) == 3 * Triplets(k)
    ensures k.tripletsCounter <= Triplets(k)
    ensures k.tripletsCounter == Triplets(k) <==> Count(k, Pending) == 0
  {
    ReachableHasInv(start, run, k);
  }

  // ---- No deadlock ----

  /** None of the whales can take a step. */
  ghost predicate Stuck(k: State) {
    forall t :: t in k.whales ==> !Ready(k, k.whales[t])
  }

  lemma LockHeld(k: State, t: Tid)
    requires PlacesOk(k) && k.lock == Some(t)
    ensures t in k.whales && Ready(k, k.whales[t])
  {}

  lemma StuckAtRest(k: State)
    requires PlacesOk(k) && Stuck(k)
    ensures k.lock == None
    ensures forall t :: t in k.whales ==> k.whales[t].pc in {Waiting, Gone}
  {
    if k.lock != None {
      LockHeld(k, k.lock.value);
    }
  }

  // How long a run can be

  /** How many steps a whale has taken. */
  function Stage(pc: Pc): nat {
    match pc
    case AtLock => 1
    case Entered => 2
    case Deciding => 3
    case Waiting => 4
    case Woken => 5
    case Matched => 6
    case Leaving => 7
    case Gone => 8
  }

  function Stages(k: State): map<Tid, nat> {
    map t | t in k.whales :: Stage(k.whales[t].pc)
  }

  lemma MatchForward(k: State, k1: State, k2: State, k': State, t: Tid, u: Tid, v: Tid)
    requires Match(k, k1, k2, k', t, u, v)
    ensures Forward(Stages(k), Stages(k'), t)
  {
    forall w | w in k.whales
      ensures w in k'.whales && Stage(k.whales[w].pc) <= Stage(k'.whales[w].pc)
    {
      assert w in k1.whales && w in k2.whales;
    }
  }

  lemma OneForward(k: State, t: Tid, place: nat)
    requires Stepping(k, t, place) && (Is(k, t, Deciding) ==> MustWait(k, k.whales[t].kind))
    ensures Forward(Stages(k), Stages(NextOf(k, t, place)), t)
  {
    assert OnlyChanged(k, NextOf(k, t, place), t);
  }

  lemma NextForward(k: State, a: Action)
    requires Inv(k) && Enabled(k, a)
    ensures Forward(Stages(k), Stages(Next(k, a)), a.t)
  {
    match a
    case Arrive(t, kind) =>
    case Step(t, place) =>
      if Is(k, t, Deciding) && !MustWait(k, k.whales[t].kind) {
        var (x, y) := Others(k.whales[t].kind);
        var k1 := At(k, t, Matched);
        MatchEffect(k, t, place);
        MatchForward(k, k1, Signalled(k1, x), NextOf(k, t, place), t, k.cv.Of(x)[0], k.cv.Of(y)[0]);
      } else {
        OneForward(k, t, place);
      }
  }

  lemma {:induction false} StepsOfRun(k: State, run: seq<Action>, k': State)
    requires Inv(k) && Reaches(k, run, k')
    ensures |run| + |Steps(Stages(k))| <= |Steps(Stages(k'))|
    decreases |run|
  {
    if run != [] {
      NextKeepsInv(k, run[0]);
      NextForward(k, run[0]);
      MoreSteps(Stages(k), Stages(Next(k, run[0])), run[0].t);
      StepsOfRun(Next(k, run[0]), run[1..], k');
    }
  }

  /** No run is longer than eight steps for each whale, so that every schedule comes to an end. */
  lemma EveryScheduleEnds(start: State, run: seq<Action>, k: State)
    requires Start(start) && Reaches(start, run, k)
    ensures |run| <= 8 * |k.whales|
  {
    StartHasInv(start);
    StepsOfRun(start, run, k);
    FewSteps(Stages(k), 8);
    assert Stages(k).Keys == k.whales.Keys;
  }

  /** When no whale can go on, t = min(M, F, K) triplets of all that came have left and are counted, and only the
    surplus of each kind waits. */
  lemma OnlyTheSurplusWaits(start: State, run: seq<Action>, k: State)
    requires Start(start) && Reaches(start, run, k) && Stuck(k)
    ensures forall t :: t in k.whales ==> k.whales[t].pc in {Waiting, Gone}
    ensures var n := Min3(Count(k, All(Male)), Count(k, All(Female)), Count(k, All(Matchmaker)));
            && k.tripletsCounter == n
            && forall kind :: |k.cv.Of(kind)| == Count(k, All(kind)) - n && Count(k, Released(kind)) == n
  {
    ReachableHasInv(start, run, k);
    StuckAtRest(k);
    AtRestCounts(k);
  }

  lemma AtRestCounts(k: State)
    requires GateOk(k) && CountsOk(k) && TalliesOk(k) && k.lock == None
    requires forall t :: t in k.whales ==> k.whales[t].pc in {Waiting, Gone}
    ensures forall kind :: Decided(k, kind) == Count(k, All(kind))
    ensures k.tripletsCounter == Triplets(k)
  {
    assert Those(k, Pending) == {};
    forall kind
      ensures Decided(k, kind) == Count(k, All(kind))
    {
      assert Those(k, All(kind)) == Those(k, Counted(kind));
      assert k.num.Of(kind) == Count(k, Counted(kind));
    }
  }
}
