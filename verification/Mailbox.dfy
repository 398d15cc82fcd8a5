/** Mailbox rendezvous for any number of senders and receivers, each call to Send or Receive one participant.

  The lock, the semaphores and the condition variables appear by what the kernel guarantees of them: a thread
  passes Acquire only when the lock is free and P only when the value is positive, and Wait gives up the lock
  and queues the caller in one step. Between any two statements any other thread may run; the place a waiter
  takes in the list is left open, since it depends on priorities. */
module Mailbox {
  import opened Options
  import opened WaitLists
  import opened Counting

  datatype Role = Sender(message: int) | Receiver

  /** The next thing a participant does. */
  datatype Pc =
    | AtBox | Entered | Counted | Waiting | Woken | Leaving
    | AtToken | AtBuffer | Testing | BufferWaiting | BufferWoken | Copying | Copied | Unlocking | Giving | Done

  datatype Participant = Participant(role: Role, pc: Pc)

  datatype Receipt = Receipt(who: Tid, message: int)

  /** `stored` and `received` record, in order, who dropped off a message and who picked up which. */
  datatype State = State(
    threads: map<Tid, Participant>, numItems: int, boxLock: Option<Tid>, mailboxCV: seq<Tid>,
    empty: int, full: int, bufferLock: Option<Tid>, bufferCV: seq<Tid>, buffer: int, bufferSet: bool,
    stored: seq<Tid>, received: seq<Receipt>)

  /** A new mailbox, whatever its buffer holds. */
  predicate Start(k: State) {
    && k.threads == map[] && k.numItems == 0 && k.boxLock == None && k.mailboxCV == []
    && k.empty == 1 && k.full == 0 && k.bufferLock == None && k.bufferCV == []
    && !k.bufferSet && k.stored == [] && k.received == []
  }

  datatype Action = Arrive(t: Tid, role: Role) | Step(t: Tid, place: nat)

  // ---- The code ----

  predicate Enabled(k: State, a: Action) {
    match a
    case Arrive(t, _) => t !in k.threads
    case Step(t, place) => t in k.threads && place <= |k.mailboxCV| && Ready(k, k.threads[t])
  }

  /** Whether a participant can take its next step now. */
  predicate Ready(k: State, p: Participant) {
    match p.pc
    case AtBox => k.boxLock == None
    case Woken => k.boxLock == None
    case AtToken => if p.role.Sender? then k.empty > 0 else k.full > 0
    case AtBuffer => k.bufferLock == None
    case BufferWoken => k.bufferLock == None
    case Waiting => false
    case BufferWaiting => false
    case Done => false
    case _ => true
  }

  function At(k: State, t: Tid, pc: Pc): State
    requires t in k.threads
  {
    k.(threads := k.threads[t := k.threads[t].(pc := pc)])
  }

  function Wake(k: State, t: Tid, pc: Pc): State {
    if t in k.threads then At(k, t, pc) else k
  }

  function Next(k: State, a: Action): State
    requires Enabled(k, a)
  {
    match a
    case Arrive(t, role) => k.(threads := k.threads[t := Participant(role, AtBox)])
    case Step(t, place) => NextOf(k, t, place)
  }

  /** Who has to wait at the gate: senders while only senders came, receivers while only receivers did. */
  predicate MustWait(k: State, role: Role) {
    if role.Sender? then k.numItems > 0 else k.numItems < 0
  }

  predicate AtGate(pc: Pc) {
    pc in {AtBox, Entered, Counted, Waiting, Woken, Leaving}
  }

  function NextOf(k: State, t: Tid, place: nat): State
    requires t in k.threads && place <= |k.mailboxCV|
  {
    if AtGate(k.threads[t].pc) then GateStep(k, t, place) else BufferStep(k, t)
  }

  /** The first half of Send and Receive, up to the release of boxLock. */
  function GateStep(k: State, t: Tid, place: nat): State
    requires t in k.threads && place <= |k.mailboxCV|
  {
    var p := k.threads[t];
    match p.pc
    case AtBox => At(k, t, Entered).(boxLock := Some(t))
    case Entered => At(k, t, Counted).(numItems := if p.role.Sender? then k.numItems + 1 else k.numItems - 1)
    case Counted =>
      if MustWait(k, p.role) then
        At(k, t, Waiting).(boxLock := None, mailboxCV := Inserted(k.mailboxCV, t, place))
      else if k.mailboxCV == [] then At(k, t, Leaving)
      else Wake(At(k, t, Leaving), k.mailboxCV[0], Woken).(mailboxCV := k.mailboxCV[1..])
    case Woken => At(k, t, Leaving).(boxLock := Some(t))
    case Leaving => At(k, t, AtToken).(boxLock := None)
    case _ => k
  }

  /** The second half: take a token, use the buffer, pass the token on. */
  function BufferStep(k: State, t: Tid): State
    requires t in k.threads
  {
    var p := k.threads[t];
    match p.pc
    case AtToken =>
      if p.role.Sender? then At(k, t, AtBuffer).(empty := k.empty - 1) else At(k, t, AtBuffer).(full := k.full - 1)
    case AtBuffer => At(k, t, Testing).(bufferLock := Some(t))
    case BufferWoken => At(k, t, Testing).(bufferLock := Some(t))
    case Testing =>
      if p.role.Sender? == k.bufferSet then At(k, t, BufferWaiting).(bufferLock := None, bufferCV := k.bufferCV + [t])
      else At(k, t, Copying)
    case Copying =>
      if p.role.Sender? then At(k, t, Copied).(buffer := p.role.message, bufferSet := true, stored := k.stored + [t])
      else At(k, t, Copied).(bufferSet := false, received := k.received + [Receipt(t, k.buffer)])
    case Copied =>
      if k.bufferCV == [] then At(k, t, Unlocking)
      else Wake(At(k, t, Unlocking), k.bufferCV[0], BufferWoken).(bufferCV := k.bufferCV[1..])
    case Unlocking => At(k, t, Giving).(bufferLock := None)
    case Giving => if p.role.Sender? then At(k, t, Done).(full := k.full + 1) else At(k, t, Done).(empty := k.empty + 1)
    case _ => k
  }

  // ---- Counting participants ----

  datatype Class = Senders | Receivers | CountedSenders | CountedReceivers | ReleasedSenders | ReleasedReceivers
    | InFlight | StoredSenders | ReceivedReceivers

  predicate PastCount(pc: Pc) {
    pc != AtBox && pc != Entered
  }

  predicate PastGate(pc: Pc) {
    pc !in {AtBox, Entered, Counted, Waiting}
  }

  predicate HasToken(pc: Pc) {
    pc in {AtBuffer, Testing, BufferWaiting, BufferWoken, Copying, Copied, Unlocking, Giving}
  }

  predicate PastCopy(pc: Pc) {
    pc in {Copied, Unlocking, Giving, Done}
  }

  predicate Belongs(p: Participant, c: Class) {
    match c
    case Senders => p.role.Sender?
    case Receivers => p.role.Receiver?
    case CountedSenders => p.role.Sender? && PastCount(p.pc)
    case CountedReceivers => p.role.Receiver? && PastCount(p.pc)
    case ReleasedSenders => p.role.Sender? && PastGate(p.pc)
    case ReleasedReceivers => p.role.Receiver? && PastGate(p.pc)
    case InFlight => HasToken(p.pc)
    case StoredSenders => p.role.Sender? && PastCopy(p.pc)
    case ReceivedReceivers => p.role.Receiver? && PastCopy(p.pc)
  }

  function Those(k: State, c: Class): set<Tid> {
    set t | t in k.threads && Belongs(k.threads[t], c)
  }

  function Count(k: State, c: Class): nat {
    |Those(k, c)|
  }

  /** Only participant `t` differs. */
  ghost predicate OnlyChanged(k: State, k': State, t: Tid) {
    t in k'.threads && k'.threads == k.threads[t := k'.threads[t]]
  }

  lemma CountAfter(k: State, k': State, t: Tid, c: Class)
    requires OnlyChanged(k, k', t)
    ensures Count(k', c) ==
            Count(k, c) - One(t in k.threads && Belongs(k.threads[t], c)) + One(Belongs(k'.threads[t], c))
  {
    var a, b := Those(k, c), Those(k', c);
    forall u | u != t
      ensures u in a <==> u in b
    {
      assert u in k.threads <==> u in k'.threads;
    }
    SizeAfter(a, b, t);
  }

  // ---- The invariant ----

  predicate HoldsBox(pc: Pc) {
    pc in {Entered, Counted, Leaving}
  }

  predicate HoldsBuffer(pc: Pc) {
    pc in {Testing, Copying, Copied, Unlocking}
  }

  predicate Is(k: State, t: Tid, pc: Pc) {
    t in k.threads && k.threads[t].pc == pc
  }

  ghost predicate BoxOk(k: State) {
    && (forall t :: t in k.threads && HoldsBox(k.threads[t].pc) <==> k.boxLock == Some(t))
    && (forall t :: t in k.mailboxCV <==> Is(k, t, Waiting))
    && NoRepeats(k.mailboxCV)
  }

  /** What the thread inside the gate has added to `numItems` without having waited or signalled yet. */
  function Undecided(k: State): int {
    if k.boxLock.Some? && Is(k, k.boxLock.value, Counted) then
      if k.threads[k.boxLock.value].role.Sender? then 1 else -1
    else 0
  }

  /** The gate's balance: how many more of one kind than of the other have come through or wait. */
  function Balance(k: State): int {
    k.numItems - Undecided(k)
  }

  predicate IsSender(k: State, t: Tid) {
    t in k.threads && k.threads[t].role.Sender?
  }

  /** The waiters are as many as the balance says, all senders if it is positive, all receivers if negative. */
  ghost predicate GateOk(k: State) {
    && |k.mailboxCV| == (if Balance(k) >= 0 then Balance(k) else -Balance(k))
    && (forall t :: t in k.mailboxCV ==> IsSender(k, t) == (Balance(k) > 0))
  }

  ghost predicate CountsOk(k: State) {
    && k.numItems == Count(k, CountedSenders) - Count(k, CountedReceivers)
    && Count(k, ReleasedSenders) == Count(k, ReleasedReceivers)
  }

  /** One token, in a semaphore or with the one participant at the buffer. */
  ghost predicate TokenOk(k: State) {
    && k.empty >= 0 && k.full >= 0
    && k.empty + k.full + Count(k, InFlight) == 1
  }

  /** Whether a participant that has the token finds a message in the buffer. */
  predicate SeesMessage(p: Participant) {
    p.role.Sender? == PastCopy(p.pc)
  }

  ghost predicate BufferOk(k: State) {
    && (k.empty > 0 ==> !k.bufferSet)
    && (k.full > 0 ==> k.bufferSet)
    && (forall t :: t in k.threads && HasToken(k.threads[t].pc) ==> k.bufferSet == SeesMessage(k.threads[t]))
  }

  /** Nobody ever sleeps inside the buffer's critical section. */
  ghost predicate InnerOk(k: State) {
    && (forall t :: t in k.threads && HoldsBuffer(k.threads[t].pc) <==> k.bufferLock == Some(t))
    && (forall t :: t in k.threads ==> k.threads[t].pc != BufferWaiting && k.threads[t].pc != BufferWoken)
    && k.bufferCV == []
  }

  predicate IsMessageOf(k: State, t: Tid, message: int) {
    t in k.threads && k.threads[t].role == Sender(message)
  }

  /** The k-th message picked up is the k-th dropped off, and at most one is on its way, in the buffer. */
  ghost predicate HistoryOk(k: State) {
    && |k.stored| == |k.received| + One(k.bufferSet)
    && (forall i :: 0 <= i < |k.received| ==> IsMessageOf(k, k.stored[i], k.received[i].message))
    && (k.bufferSet ==> IsMessageOf(k, k.stored[|k.stored| - 1], k.buffer))
  }

  ghost predicate DoneOk(k: State) {
    && |k.stored| == Count(k, StoredSenders)
    && |k.received| == Count(k, ReceivedReceivers)
  }

  /** Every sender drops off once, every receiver picks up once. */
  ghost predicate OnceOk(k: State) {
    && (forall i :: 0 <= i < |k.stored| ==> k.stored[i] in Those(k, StoredSenders))
    && (forall i :: 0 <= i < |k.received| ==> k.received[i].who in Those(k, ReceivedReceivers))
    && NoRepeats(k.stored)
    && (forall i, j :: 0 <= i < j < |k.received| ==> k.received[i].who != k.received[j].who)
  }

  ghost predicate Inv(k: State) {
    GateInv(k) && BufferInv(k)
  }

  // ---- Every step keeps it ----

  lemma TokenIsSingle(k: State, t: Tid, u: Tid)
    requires TokenOk(k) && t in Those(k, InFlight)
    ensures k.empty == 0 && k.full == 0
    ensures u in Those(k, InFlight) ==> u == t
  {
    var a := Those(k, InFlight);
    assert a == {t} + (a - {t});
    assert |a - {t}| == 0;
  }

  /** Whoever is at the buffer, or just now taking the token, is the only one there. */
  lemma AloneAtBuffer(k: State, t: Tid, u: Tid)
    requires TokenOk(k) && t in k.threads && Ready(k, k.threads[t])
    requires HasToken(k.threads[t].pc) || k.threads[t].pc == AtToken
    requires u in k.threads && HasToken(k.threads[u].pc)
    ensures u == t && k.empty == 0 && k.full == 0
  {
    assert u in Those(k, InFlight);
    TokenIsSingle(k, u, t);
  }

  /** Participant `t` goes from one pc to another; the rest of the participants are as they were. */
  ghost predicate Moves(k: State, k': State, t: Tid) {
    && t in k.threads && t in k'.threads
    && k'.threads == k.threads[t := k.threads[t].(pc := k'.threads[t].pc)]
  }

  predicate SameGate(k: State, k': State) {
    k'.numItems == k.numItems && k'.boxLock == k.boxLock && k'.mailboxCV == k.mailboxCV
  }

  predicate SameBuffer(k: State, k': State) {
    && k'.empty == k.empty && k'.full == k.full && k'.bufferLock == k.bufferLock && k'.bufferCV == k.bufferCV
    && k'.buffer == k.buffer && k'.bufferSet == k.bufferSet && k'.stored == k.stored && k'.received == k.received
  }

  lemma CountsMove(k: State, k': State, t: Tid)
    requires Moves(k, k', t)
    ensures forall c :: Count(k', c) == Count(k, c) - One(Belongs(k.threads[t], c)) + One(Belongs(k'.threads[t], c))
  {
    forall c
      ensures Count(k', c) == Count(k, c) - One(Belongs(k.threads[t], c)) + One(Belongs(k'.threads[t], c))
    {
      CountAfter(k, k', t, c);
    }
  }

  ghost predicate GateInv(k: State) {
    BoxOk(k) && GateOk(k) && CountsOk(k)
  }

  ghost predicate BufferInv(k: State) {
    TokenOk(k) && BufferOk(k) && InnerOk(k) && HistoryOk(k) && DoneOk(k) && OnceOk(k)
  }

  /** Moving about beyond the gate does not disturb the gate. */
  lemma GateUndisturbed(k: State, k': State, t: Tid)
    requires GateInv(k) && Moves(k, k', t) && SameGate(k, k')
    requires !AtGate(k.threads[t].pc) && !AtGate(k'.threads[t].pc)
    ensures GateInv(k')
  {
    GateCountsUndisturbed(k, k', t);
    assert Undecided(k') == Undecided(k);
  }

  lemma GateCountsUndisturbed(k: State, k': State, t: Tid)
    requires CountsOk(k) && Moves(k, k', t) && SameGate(k, k')
    requires !AtGate(k.threads[t].pc) && !AtGate(k'.threads[t].pc)
    ensures CountsOk(k')
  {
    CountsMove(k, k', t);
  }

  /** Still in the first half, or just through it. */
  ghost predicate MovesAtGate(k: State, k': State, t: Tid) {
    Moves(k, k', t) && AtGate(k.threads[t].pc) && (AtGate(k'.threads[t].pc) || k'.threads[t].pc == AtToken)
  }

  /** Moving about before the buffer does not disturb the buffer. */
  lemma BufferUndisturbed(k: State, k': State, t: Tid)
    requires BufferInv(k) && MovesAtGate(k, k', t) && SameBuffer(k, k')
    ensures BufferInv(k')
  {
    TokensUndisturbed(k, k', t);
    HistoryUndisturbed(k, k', t);
  }

  lemma TokensUndisturbed(k: State, k': State, t: Tid)
    requires TokenOk(k) && DoneOk(k) && MovesAtGate(k, k', t) && SameBuffer(k, k')
    ensures TokenOk(k') && DoneOk(k')
  {
    CountsMove(k, k', t);
  }

  lemma HistoryUndisturbed(k: State, k': State, t: Tid)
    requires HistoryOk(k) && OnceOk(k) && MovesAtGate(k, k', t) && SameBuffer(k, k')
    ensures HistoryOk(k') && OnceOk(k')
  {
    assert forall u, m :: IsMessageOf(k, u, m) ==> IsMessageOf(k', u, m);
    assert Those(k', StoredSenders) == Those(k, StoredSenders);
    assert Those(k', ReceivedReceivers) == Those(k, ReceivedReceivers);
  }

  // The gate

  predicate Stepping(k: State, t: Tid, place: nat) {
    t in k.threads && place <= |k.mailboxCV| && Ready(k, k.threads[t])
  }

  /** The signalling branch. */
  predicate Signals(k: State, t: Tid) {
    Is(k, t, Counted) && !MustWait(k, k.threads[t].role) && k.mailboxCV != []
  }

  /** Passing the gate: the caller goes on and the first waiter with it. */
  lemma SignalEffect(k: State, t: Tid, place: nat)
    requires BoxOk(k) && Stepping(k, t, place) && Signals(k, t)
    ensures var u, k1, k' := k.mailboxCV[0], At(k, t, Leaving), GateStep(k, t, place);
            && u in k.mailboxCV && Is(k, u, Waiting) && u != t
            && Moves(k, k1, t) && Moves(k1, k', u)
            && k' == At(k1, u, Woken).(mailboxCV := k.mailboxCV[1..])
            && NoRepeats(k.mailboxCV[1..]) && (forall w :: w in k.mailboxCV[1..] <==> w in k.mailboxCV && w != u)
  {
    assert k.mailboxCV[0] in k.mailboxCV;
    DropFirst(k.mailboxCV);
  }

  lemma SignalKeepsBox(k: State, t: Tid, place: nat)
    requires BoxOk(k) && Stepping(k, t, place) && Signals(k, t)
    ensures BoxOk(GateStep(k, t, place))
  {
    SignalEffect(k, t, place);
  }

  lemma SignalKeepsBalance(k: State, t: Tid, place: nat)
    requires GateInv(k) && Stepping(k, t, place) && Signals(k, t)
    ensures GateOk(GateStep(k, t, place))
  {
    SignalEffect(k, t, place);
  }

  lemma SignalKeepsGate(k: State, t: Tid, place: nat)
    requires GateInv(k) && Stepping(k, t, place) && Signals(k, t)
    ensures BoxOk(GateStep(k, t, place)) && GateOk(GateStep(k, t, place))
  {
    SignalKeepsBox(k, t, place);
    SignalKeepsBalance(k, t, place);
  }

  /** The caller and the waiter it lets through are a sender and a receiver. */
  lemma SignalKeepsCounts(k: State, t: Tid, place: nat)
    requires GateInv(k) && Stepping(k, t, place) && Signals(k, t)
    ensures CountsOk(GateStep(k, t, place))
  {
    SignalEffect(k, t, place);
    assert IsSender(k, k.mailboxCV[0]) != IsSender(k, t);
    PairCounts(k, At(k, t, Leaving), GateStep(k, t, place), t, k.mailboxCV[0]);
  }

  lemma PairCounts(k: State, k1: State, k': State, t: Tid, u: Tid)
    requires CountsOk(k) && Moves(k, k1, t) && Moves(k1, k', u) && k'.numItems == k.numItems && u != t && u in k.threads
    requires Is(k, t, Counted) && Is(k1, t, Leaving) && Is(k, u, Waiting)
    requires Is(k', u, Woken) && IsSender(k, u) != IsSender(k, t)
    ensures CountsOk(k')
  {
    CountsMove(k, k1, t);
    CountsMove(k1, k', u);
  }

  lemma WaitKeepsGate(k: State, t: Tid, place: nat)
    requires BoxOk(k) && GateOk(k) && Stepping(k, t, place) && Is(k, t, Counted) && MustWait(k, k.threads[t].role)
    ensures BoxOk(GateStep(k, t, place)) && GateOk(GateStep(k, t, place))
  {
    InsertMembers(k.mailboxCV, t, place);
  }

  lemma WaitKeepsCounts(k: State, t: Tid, place: nat)
    requires CountsOk(k) && Stepping(k, t, place) && Is(k, t, Counted) && MustWait(k, k.threads[t].role)
    ensures CountsOk(GateStep(k, t, place))
  {
    CountsMove(k, GateStep(k, t, place), t);
  }

  /** Nobody passes the gate without a partner. */
  lemma SomebodyWaits(k: State, t: Tid)
    requires BoxOk(k) && GateOk(k) && Is(k, t, Counted) && !MustWait(k, k.threads[t].role)
    ensures k.mailboxCV != []
  {}

  lemma OtherKeepsGate(k: State, t: Tid, place: nat)
    requires BoxOk(k) && GateOk(k) && Stepping(k, t, place) && AtGate(k.threads[t].pc) && !Is(k, t, Counted)
    ensures BoxOk(GateStep(k, t, place)) && GateOk(GateStep(k, t, place))
  {}

  lemma OtherKeepsCounts(k: State, t: Tid, place: nat)
    requires CountsOk(k) && Stepping(k, t, place) && AtGate(k.threads[t].pc) && !Is(k, t, Counted)
    ensures CountsOk(GateStep(k, t, place))
  {
    var k' := GateStep(k, t, place);
    CountAfter(k, k', t, CountedSenders);
    CountAfter(k, k', t, CountedReceivers);
    CountAfter(k, k', t, ReleasedSenders);
    CountAfter(k, k', t, ReleasedReceivers);
  }

  lemma GateStepKeepsInv(k: State, t: Tid, place: nat)
    requires Inv(k) && Stepping(k, t, place) && AtGate(k.threads[t].pc)
    ensures Inv(GateStep(k, t, place))
  {
    var k' := GateStep(k, t, place);
    if Signals(k, t) {
      SignalEffect(k, t, place);
      SignalKeepsGate(k, t, place);
      SignalKeepsCounts(k, t, place);
      BufferUndisturbed(k, At(k, t, Leaving), t);
      BufferUndisturbed(At(k, t, Leaving), k', k.mailboxCV[0]);
    } else {
      if Is(k, t, Counted) {
        if !MustWait(k, k.threads[t].role) {
          SomebodyWaits(k, t);
        }
        WaitKeepsGate(k, t, place);
        WaitKeepsCounts(k, t, place);
      } else {
        OtherKeepsGate(k, t, place);
        OtherKeepsCounts(k, t, place);
      }
      BufferUndisturbed(k, k', t);
    }
  }

  // The buffer

  lemma BufferStepMoves(k: State, t: Tid)
    requires k.bufferCV == [] && t in k.threads
    ensures Moves(k, BufferStep(k, t), t) && SameGate(k, BufferStep(k, t))
  {
    if k.threads[t].pc !in {AtToken, AtBuffer, BufferWoken, Testing, Copying, Copied, Unlocking, Giving} {
      assert k.threads == k.threads[t := k.threads[t]];
    }
  }

  lemma BufferStepEffect(k: State, t: Tid)
    requires InnerOk(k) && Stepping(k, t, 0) && !AtGate(k.threads[t].pc)
    ensures Moves(k, BufferStep(k, t), t) && SameGate(k, BufferStep(k, t)) && !AtGate(BufferStep(k, t).threads[t].pc)
  {
    BufferStepMoves(k, t);
    StaysPastGate(k, t);
  }

  lemma StaysPastGate(k: State, t: Tid)
    requires k.bufferCV == [] && t in k.threads && !AtGate(k.threads[t].pc)
    ensures t in BufferStep(k, t).threads && !AtGate(BufferStep(k, t).threads[t].pc)
  {}

  lemma StepKeepsToken(k: State, t: Tid)
    requires TokenOk(k) && InnerOk(k) && Stepping(k, t, 0) && !AtGate(k.threads[t].pc)
    ensures TokenOk(BufferStep(k, t))
  {
    BufferStepEffect(k, t);
    CountAfter(k, BufferStep(k, t), t, InFlight);
    if HasToken(k.threads[t].pc) {
      AloneAtBuffer(k, t, t);
    }
  }

  lemma StepKeepsDone(k: State, t: Tid)
    requires DoneOk(k) && InnerOk(k) && Stepping(k, t, 0) && !AtGate(k.threads[t].pc)
    ensures DoneOk(BufferStep(k, t))
  {
    BufferStepEffect(k, t);
    CountAfter(k, BufferStep(k, t), t, StoredSenders);
    CountAfter(k, BufferStep(k, t), t, ReceivedReceivers);
  }

  lemma StepKeepsInner(k: State, t: Tid)
    requires BufferOk(k) && InnerOk(k) && Stepping(k, t, 0) && !AtGate(k.threads[t].pc)
    ensures InnerOk(BufferStep(k, t))
  {}

  lemma StepKeepsBuffer(k: State, t: Tid)
    requires TokenOk(k) && BufferOk(k) && InnerOk(k) && Stepping(k, t, 0) && !AtGate(k.threads[t].pc)
    ensures BufferOk(BufferStep(k, t))
  {
    forall u | u in k.threads && HasToken(k.threads[u].pc)
      ensures u == t && k.empty == 0 && k.full == 0
    {
      AloneAtBuffer(k, t, u);
    }
  }

  lemma StepKeepsHistory(k: State, t: Tid)
    requires BufferOk(k) && InnerOk(k) && HistoryOk(k) && Stepping(k, t, 0) && !AtGate(k.threads[t].pc)
    ensures HistoryOk(BufferStep(k, t))
  {
    var k' := BufferStep(k, t);
    assert forall u, m :: IsMessageOf(k, u, m) ==> IsMessageOf(k', u, m);
    if k.threads[t].pc == Copying {
      assert HasToken(k.threads[t].pc);
    }
  }

  ghost predicate ThoseGrow(k: State, k': State) {
    && Those(k, StoredSenders) <= Those(k', StoredSenders)
    && Those(k, ReceivedReceivers) <= Those(k', ReceivedReceivers)
  }

  lemma ThoseGrowWith(k: State, k': State, t: Tid, c: Class)
    requires OnlyChanged(k, k', t) && (t in k.threads && Belongs(k.threads[t], c) ==> Belongs(k'.threads[t], c))
    ensures Those(k, c) <= Those(k', c)
  {
    forall u | u in Those(k, c)
      ensures u in Those(k', c)
    {
      assert u == t || k'.threads[u] == k.threads[u];
    }
  }

  /** Only a thread at Copying becomes one that has copied, and none becomes one that has not. */
  lemma CopiedStays(k: State, t: Tid)
    requires k.bufferCV == [] && t in k.threads && PastCopy(k.threads[t].pc)
    ensures t in BufferStep(k, t).threads && BufferStep(k, t).threads[t].role == k.threads[t].role
    ensures PastCopy(BufferStep(k, t).threads[t].pc)
  {}

  lemma BufferThoseGrow(k: State, t: Tid)
    requires InnerOk(k) && Stepping(k, t, 0) && !AtGate(k.threads[t].pc)
    ensures ThoseGrow(k, BufferStep(k, t))
  {
    BufferStepEffect(k, t);
    if PastCopy(k.threads[t].pc) {
      CopiedStays(k, t);
    }
    ThoseGrowWith(k, BufferStep(k, t), t, StoredSenders);
    ThoseGrowWith(k, BufferStep(k, t), t, ReceivedReceivers);
  }

  lemma CopyingOnce(k: State, t: Tid)
    requires OnceOk(k) && Is(k, t, Copying) && ThoseGrow(k, BufferStep(k, t))
    ensures OnceOk(BufferStep(k, t))
  {
    assert t !in Those(k, StoredSenders) && t !in Those(k, ReceivedReceivers);
    assert t in Those(BufferStep(k, t), if IsSender(k, t) then StoredSenders else ReceivedReceivers);
  }

  lemma StepKeepsOnce(k: State, t: Tid)
    requires InnerOk(k) && OnceOk(k) && Stepping(k, t, 0) && !AtGate(k.threads[t].pc)
    ensures OnceOk(BufferStep(k, t))
  {
    BufferThoseGrow(k, t);
    if Is(k, t, Copying) {
      CopyingOnce(k, t);
    }
  }

  lemma BufferStepKeepsInv(k: State, t: Tid)
    requires Inv(k) && Stepping(k, t, 0) && !AtGate(k.threads[t].pc)
    ensures Inv(BufferStep(k, t))
  {
    StepKeepsToken(k, t);
    StepKeepsDone(k, t);
    StepKeepsInner(k, t);
    StepKeepsBuffer(k, t);
    StepKeepsHistory(k, t);
    StepKeepsOnce(k, t);
    BufferStepEffect(k, t);
    GateUndisturbed(k, BufferStep(k, t), t);
  }

  // ---- Runs ----

  lemma ArrivalCounts(k: State, k': State, t: Tid)
    requires OnlyChanged(k, k', t) && t !in k.threads && k'.threads[t].pc == AtBox
    ensures forall c :: c != Senders && c != Receivers ==> Count(k', c) == Count(k, c)
  {
    forall c | c != Senders && c != Receivers
      ensures Count(k', c) == Count(k, c)
    {
      CountAfter(k, k', t, c);
    }
  }

  lemma ArrivalKeepsBox(k: State, k': State, t: Tid)
    requires BoxOk(k) && OnlyChanged(k, k', t) && t !in k.threads && k'.threads[t].pc == AtBox && SameGate(k, k')
    ensures BoxOk(k') && Balance(k') == Balance(k)
  {}

  lemma ArrivalKeepsGate(k: State, k': State, t: Tid)
    requires GateInv(k) && OnlyChanged(k, k', t) && t !in k.threads && k'.threads[t].pc == AtBox && SameGate(k, k')
    ensures GateInv(k')
  {
    ArrivalKeepsBox(k, k', t);
    ArrivalCounts(k, k', t);
  }

  lemma ArrivalKeepsBuffer(k: State, k': State, t: Tid)
    requires BufferInv(k) && OnlyChanged(k, k', t) && t !in k.threads && k'.threads[t].pc == AtBox && SameBuffer(k, k')
    ensures BufferInv(k')
  {
    ArrivalCounts(k, k', t);
    assert forall u, m :: IsMessageOf(k, u, m) ==> IsMessageOf(k', u, m);
    assert ThoseGrow(k, k');
  }

  lemma NextKeepsInv(k: State, a: Action)
    requires Inv(k) && Enabled(k, a)
    ensures Inv(Next(k, a))
  {
    match a
    case Arrive(t, _) =>
      ArrivalKeepsGate(k, Next(k, a), t);
      ArrivalKeepsBuffer(k, Next(k, a), t);
    case Step(t, place) =>
      if AtGate(k.threads[t].pc) {
        GateStepKeepsInv(k, t, place);
      } else {
        BufferStepKeepsInv(k, t);
      }
  }

  ghost predicate Reaches(k: State, run: seq<Action>, k': State)
    decreases |run|
  {
    if run == [] then k' == k else Enabled(k, run[0]) && Reaches(Next(k, run[0]), run[1..], k')
  }

  lemma {:induction false} RunKeepsInv(k: State, run: seq<Action>, k': State)
    requires Inv(k) && Reaches(k, run, k')
    ensures Inv(k')
    decreases |run|
  {
    if run != [] {
      NextKeepsInv(k, run[0]);
      RunKeepsInv(Next(k, run[0]), run[1..], k');
    }
  }

  lemma StartHasInv(k: State)
    requires Start(k)
    ensures Inv(k)
  {
    forall c
      ensures Count(k, c) == 0
    {
      assert Those(k, c) == {};
    }
  }

  lemma ReachableHasInv(start: State, run: seq<Action>, k: State)
    requires Start(start) && Reaches(start, run, k)
    ensures Inv(k)
  {
    StartHasInv(start);
    RunKeepsInv(start, run, k);
  }

  /** The wait inside the buffer's critical section, which no run comes to: it gives up the lock and queues the caller,
    a signal takes the first waiter off, and that takes the lock again only when it is free. */
  lemma InnerWait(k: State, t: Tid)
    requires t in k.threads
    ensures k.threads[t].pc == Testing && IsSender(k, t) == k.bufferSet ==>
              var k' := BufferStep(k, t);
              Is(k', t, BufferWaiting) && k'.bufferLock == None && k'.bufferCV == k.bufferCV + [t]
    ensures k.threads[t].pc == Copied && k.bufferCV != [] && k.bufferCV[0] in k.threads && k.bufferCV[0] != t ==>
              var k' := BufferStep(k, t);
              && Is(k', t, Unlocking) && Is(k', k.bufferCV[0], BufferWoken) && k'.bufferCV == k.bufferCV[1..]
              && k'.bufferLock == k.bufferLock
    ensures k.threads[t].pc == BufferWaiting ==> !Ready(k, k.threads[t])
    ensures k.threads[t].pc == BufferWoken ==>
              && (Ready(k, k.threads[t]) <==> k.bufferLock == None)
              && Is(BufferStep(k, t), t, Testing) && BufferStep(k, t).bufferLock == Some(t)
  {}

  // How long a run can be

  /** How many steps a participant has taken; on the way nobody ever waits on bufferCV. */
  function Stage(pc: Pc): nat {
    match pc
    case AtBox => 1
    case Entered => 2
    case Counted => 3
    case Waiting => 4
    case Woken => 5
    case Leaving => 6
    case AtToken => 7
    case AtBuffer => 8
    case BufferWaiting => 8
    case BufferWoken => 8
    case Testing => 9
    case Copying => 10
    case Copied => 11
    case Unlocking => 12
    case Giving => 13
    case Done => 14
  }

  function Stages(k: State): map<Tid, nat> {
    map t | t in k.threads :: Stage(k.threads[t].pc)
  }

  lemma MoveForward(k: State, k': State, t: Tid)
    requires Moves(k, k', t) && Stage(k.threads[t].pc) < Stage(k'.threads[t].pc)
    ensures Forward(Stages(k), Stages(k'), t)
  {}

  lemma TwoForward(k: State, k1: State, k': State, t: Tid, u: Tid)
    requires Moves(k, k1, t) && Moves(k1, k', u) && u != t
    requires Is(k, t, Counted) && Is(k1, t, Leaving) && Is(k, u, Waiting) && Is(k', u, Woken)
    ensures Forward(Stages(k), Stages(k'), t)
  {
    MoveForward(k, k1, t);
    MoveForward(k1, k', u);
  }

  lemma GateMoves(k: State, t: Tid, place: nat)
    requires Stepping(k, t, place) && AtGate(k.threads[t].pc) && !Signals(k, t)
    ensures Moves(k, GateStep(k, t, place), t)
    ensures Stage(k.threads[t].pc) < Stage(GateStep(k, t, place).threads[t].pc)
  {}

  lemma GateStepForward(k: State, t: Tid, place: nat)
    requires BoxOk(k) && Stepping(k, t, place) && AtGate(k.threads[t].pc)
    ensures Forward(Stages(k), Stages(GateStep(k, t, place)), t)
  {
    if Signals(k, t) {
      SignalEffect(k, t, place);
      TwoForward(k, At(k, t, Leaving), GateStep(k, t, place), t, k.mailboxCV[0]);
    } else {
      GateMoves(k, t, place);
      MoveForward(k, GateStep(k, t, place), t);
    }
  }

  lemma EarlyStageGrows(k: State, t: Tid)
    requires t in k.threads && k.threads[t].pc in {AtToken, AtBuffer, BufferWoken, Testing}
    requires BufferStep(k, t).threads[t].pc != BufferWaiting
    ensures Stage(k.threads[t].pc) < Stage(BufferStep(k, t).threads[t].pc)
  {}

  lemma LateStageGrows(k: State, t: Tid)
    requires k.bufferCV == [] && t in k.threads && k.threads[t].pc in {Copying, Copied, Unlocking, Giving}
    ensures t in BufferStep(k, t).threads && Stage(k.threads[t].pc) < Stage(BufferStep(k, t).threads[t].pc)
  {}

  lemma BufferStageGrows(k: State, t: Tid)
    requires k.bufferCV == [] && Stepping(k, t, 0) && !AtGate(k.threads[t].pc)
    requires t in BufferStep(k, t).threads && BufferStep(k, t).threads[t].pc != BufferWaiting
    ensures Stage(k.threads[t].pc) < Stage(BufferStep(k, t).threads[t].pc)
  {
    if k.threads[t].pc in {AtToken, AtBuffer, BufferWoken, Testing} {
      EarlyStageGrows(k, t);
    } else {
      LateStageGrows(k, t);
    }
  }

  lemma BufferStepForward(k: State, t: Tid)
    requires InnerOk(k) && Stepping(k, t, 0) && !AtGate(k.threads[t].pc) && InnerOk(BufferStep(k, t))
    ensures Forward(Stages(k), Stages(BufferStep(k, t)), t)
  {
    BufferStepEffect(k, t);
    BufferStageGrows(k, t);
    MoveForward(k, BufferStep(k, t), t);
  }

  lemma NextForward(k: State, a: Action)
    requires Inv(k) && Enabled(k, a) && Inv(Next(k, a))
    ensures Forward(Stages(k), Stages(Next(k, a)), a.t)
  {
    match a
    case Arrive(t, _) =>
    case Step(t, place) =>
      if AtGate(k.threads[t].pc) {
        GateStepForward(k, t, place);
      } else {
        BufferStepForward(k, t);
      }
  }

  lemma {:induction false} StepsOfRun(k: State, run: seq<Action>, k': State)
    requires Inv(k) && Reaches(k, run, k')
    ensures |run| + |Steps(Stages(k))| <= |Steps(Stages(k'))|
    decreases |run|
  {
    if run != [] {
      NextKeepsInv(k, run[0]);
      NextForward(k, run[0]);
      MoreSteps(Stages(k), Stages(Next(k, run[0])), run[0].t);
      StepsOfRun(Next(k, run[0]), run[1..], k');
    }
  }

  /** No run is longer than 14 steps for each participant, so that every schedule comes to an end. */
  lemma EveryScheduleEnds(start: State, run: seq<Action>, k: State)
    requires Start(start) && Reaches(start, run, k)
    ensures |run| <= 14 * |k.threads|
  {
    StartHasInv(start);
    StepsOfRun(start, run, k);
    FourteenSteps(k);
  }

  lemma FourteenSteps(k: State)
    ensures |Steps(Stages(k))| <= 14 * |k.threads|
  {
    FewSteps(Stages(k), 14);
    assert Stages(k).Keys == k.threads.Keys;
  }

  /** In every run, the i-th message picked up is the i-th dropped off, each by a different participant; at most
    one is under way; none is overwritten before it is read; and nobody sleeps on bufferCV. */
  lemma MessagesArriveInOrder(start: State, run: seq<Action>, k: State)
    requires Start(start) && Reaches(start, run, k)
    ensures |k.received| <= |k.stored| <= |k.received| + 1
    ensures forall i :: 0 <= i < |k.received| ==> IsMessageOf(k, k.stored[i], k.received[i].message)
    ensures NoRepeats(k.stored)
    ensures forall i, j :: 0 <= i < j < |k.received| ==> k.received[i].who != k.received[j].who
    ensures forall t :: Is(k, t, Copying) && IsSender(k, t) ==> |k.stored| == |k.received|
    ensures forall t :: !Is(k, t, BufferWaiting)
  {
    ReachableHasInv(start, run, k);
    InOrder(k);
  }

  lemma InOrder(k: State)
    requires BufferOk(k) && InnerOk(k) && HistoryOk(k)
    ensures |k.received| <= |k.stored| <= |k.received| + 1
    ensures forall t :: Is(k, t, Copying) && IsSender(k, t) ==> |k.stored| == |k.received|
    ensures forall t :: !Is(k, t, BufferWaiting)
  {
    forall t | Is(k, t, Copying) && IsSender(k, t)
      ensures |k.stored| == |k.received|
    {
      assert HasToken(k.threads[t].pc);
    }
  }

  /** In every run, whenever nobody is inside the gate, |numItems| participants wait there, all of one kind, and
    as many senders as receivers have been let through. */
  lemma GatePairsExactly(start: State, run: seq<Action>, k: State)
    requires Start(start) && Reaches(start, run, k) && k.boxLock == None
    ensures |k.mailboxCV| == (if k.numItems >= 0 then k.numItems else -k.numItems)
    ensures forall t :: t in k.mailboxCV ==> IsSender(k, t) == (k.numItems > 0)
    ensures Count(k, ReleasedSenders) == Count(k, ReleasedReceivers)
  {
    ReachableHasInv(start, run, k);
    GateBalance(k);
  }

  lemma GateBalance(k: State)
    requires GateOk(k) && k.boxLock == None
    ensures |k.mailboxCV| == (if k.numItems >= 0 then k.numItems else -k.numItems)
    ensures forall t :: t in k.mailboxCV ==> IsSender(k, t) == (k.numItems > 0)
  {
    assert Balance(k) == k.numItems;
  }

  // ---- No deadlock ----

  /** None of the participants can take a step. */
  ghost predicate Stuck(k: State) {
    forall t :: t in k.threads ==> !Ready(k, k.threads[t])
  }

  lemma BoxHeld(k: State, t: Tid)
    requires BoxOk(k) && k.boxLock == Some(t)
    ensures t in k.threads && Ready(k, k.threads[t])
  {}

  lemma BufferHeld(k: State, t: Tid)
    requires InnerOk(k) && k.bufferLock == Some(t)
    ensures t in k.threads && Ready(k, k.threads[t])
  {}

  predicate Stopped(k: State, p: Participant) {
    p.pc in {Waiting, Done} || (p.pc == AtToken && (if p.role.Sender? then k.empty else k.full) <= 0)
  }

  lemma StuckPlaces(k: State, t: Tid)
    requires BoxOk(k) && InnerOk(k) && Stuck(k) && t in k.threads
    ensures k.boxLock == None && Stopped(k, k.threads[t])
  {
    if k.boxLock != None {
      BoxHeld(k, k.boxLock.value);
    }
    if k.bufferLock != None {
      BufferHeld(k, k.bufferLock.value);
    }
  }

  lemma SameSize(k: State, c: Class, d: Class)
    requires forall t :: t in k.threads ==> (Belongs(k.threads[t], c) <==> Belongs(k.threads[t], d))
    ensures Count(k, c) == Count(k, d)
  {
    assert Those(k, c) == Those(k, d);
  }

  /** Stuck, no one is left waiting for a token: those let through come in pairs, and so do messages dropped off
    and picked up. */
  lemma StuckTokens(k: State, t: Tid)
    requires CountsOk(k) && TokenOk(k) && BufferOk(k) && HistoryOk(k) && DoneOk(k) && t in k.threads
    requires forall u :: u in k.threads ==> Stopped(k, k.threads[u])
    ensures k.threads[t].pc in {Waiting, Done}
  {
    assert Those(k, InFlight) == {};
    SubsetSize(Those(k, StoredSenders), Those(k, ReleasedSenders));
    SubsetSize(Those(k, ReceivedReceivers), Those(k, ReleasedReceivers));
    SameSize(k, if k.full == 1 then ReceivedReceivers else StoredSenders,
             if k.full == 1 then ReleasedReceivers else ReleasedSenders);
    assert k.threads[t].pc == AtToken ==>
        && t in Those(k, if IsSender(k, t) then ReleasedSenders else ReleasedReceivers)
        && t !in Those(k, if IsSender(k, t) then StoredSenders else ReceivedReceivers);
  }

  ghost predicate AllWaitOrDone(k: State) {
    forall t :: t in k.threads ==> k.threads[t].pc in {Waiting, Done}
  }

  lemma StuckAtRest(k: State)
    requires Inv(k) && Stuck(k)
    ensures AllWaitOrDone(k)
    ensures k.boxLock == None
  {
    forall t | t in k.threads
      ensures Stopped(k, k.threads[t])
    {
      StuckPlaces(k, t);
    }
    forall t | t in k.threads
      ensures k.threads[t].pc in {Waiting, Done}
    {
      StuckTokens(k, t);
    }
    if k.boxLock != None {
      BoxHeld(k, k.boxLock.value);
    }
  }

  ghost predicate WaitersAgree(k: State) {
    forall t :: Is(k, t, Waiting) ==> k.numItems != 0 && IsSender(k, t) == (k.numItems > 0)
  }

  lemma WaitersOfOneKind(k: State)
    requires BoxOk(k) && GateOk(k) && k.boxLock == None
    ensures WaitersAgree(k)
    ensures |k.mailboxCV| == (if k.numItems >= 0 then k.numItems else -k.numItems)
  {
    GateBalance(k);
    forall t | Is(k, t, Waiting)
      ensures k.numItems != 0 && IsSender(k, t) == (k.numItems > 0)
    {
      assert t in k.mailboxCV;
    }
  }

  lemma AllReceiversServed(k: State)
    requires AllWaitOrDone(k) && WaitersAgree(k) && k.numItems >= 0
    ensures Count(k, Receivers) == Count(k, ReceivedReceivers)
  {
    forall t | t in k.threads && k.threads[t].role.Receiver?
      ensures k.threads[t].pc == Done
    {
      assert !Is(k, t, Waiting);
    }
    SameSize(k, Receivers, ReceivedReceivers);
  }

  lemma AllSendersServed(k: State)
    requires AllWaitOrDone(k) && WaitersAgree(k) && k.numItems < 0
    ensures Count(k, Senders) == Count(k, ReleasedSenders)
    ensures Count(k, ReleasedReceivers) == Count(k, ReceivedReceivers)
  {
    forall t | t in k.threads && k.threads[t].role.Sender?
      ensures k.threads[t].pc == Done
    {
      assert !Is(k, t, Waiting);
    }
    SameSize(k, Senders, ReleasedSenders);
    SameSize(k, ReleasedReceivers, ReceivedReceivers);
  }

  lemma RestIsPaired(k: State)
    requires CountsOk(k) && DoneOk(k) && AllWaitOrDone(k) && WaitersAgree(k)
    ensures var s, r := Count(k, Senders), Count(k, Receivers);
            k.numItems == s - r && |k.received| == (if s <= r then s else r)
  {
    SameSize(k, Senders, CountedSenders);
    SameSize(k, Receivers, CountedReceivers);
    if k.numItems >= 0 {
      AllReceiversServed(k);
    } else {
      AllSendersServed(k);
    }
  }

  /** When no participant can go on, as many messages have been delivered as there are pairs, and exactly the
    surplus of senders over receivers, or of receivers over senders, waits at the gate. */
  lemma OnlyTheUnpairedWait(start: State, run: seq<Action>, k: State)
    requires Start(start) && Reaches(start, run, k) && Stuck(k)
    ensures AllWaitOrDone(k)
    ensures var s, r := Count(k, Senders), Count(k, Receivers);
            && |k.received| == (if s <= r then s else r)
            && |k.mailboxCV| == (if s <= r then r - s else s - r)
            && forall t :: Is(k, t, Waiting) ==> IsSender(k, t) == (s > r)
  {
    ReachableHasInv(start, run, k);
    StuckAtRest(k);
    WaitersOfOneKind(k);
    RestIsPaired(k);
  }
}
