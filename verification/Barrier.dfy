/** The barrier of pthread_barrier_wait.c, over unboundedly many rounds and any
number of threads.

The queue lock appears as the lock that McsLock proves it to be: free, held by
a thread, or held through the proxy node that the last thread to arrive hands
to the barrier. */
module Barrier {
  import opened Threads

  datatype Lock = Free | By(t: nat) | Proxy

  /** How many threads have entered and left a round, and how many of them were
  told PTHREAD_BARRIER_SERIAL_THREAD. */
  datatype Round = Round(entered: int, left: int, serial: int)

  datatype Fields = Fields(
    height: int,         // nInitialBarrierHeight
    current: int,        // nCurrentBarrierHeight
    lock: Lock,
    sem: int,            // semBarrierBreeched
    done: seq<Round>,    // history: the rounds that are over
    cur: Round)          // and the one under way

  /** The argument is the round the thread entered. */
  datatype PC =
    | Idle
    | Acquire
    | Decrement
    | Transfer(r: nat)
    | PostAll(r: nat)
    | Release(r: nat)
    | SemWait(r: nat)
    | Increment(r: nat)
    | ReleaseProxy(r: nat)

  datatype State = State(f: Fields, pc: seq<PC>)

  predicate Ready(f: Fields, p: PC) {
    match p
    case Idle => false
    case Acquire => f.lock.Free?
    case SemWait(_) => f.sem > 0
    case _ => true
  }

  /** A thread that entered round r leaves it. */
  function Leave(f: Fields, r: nat, serial: int): Fields {
    if r < |f.done| then
      f.(done := f.done[r := f.done[r].(left := f.done[r].left + 1, serial := f.done[r].serial + serial)])
    else f.(cur := f.cur.(left := f.cur.left + 1, serial := f.cur.serial + serial))
  }

  function Step(f: Fields, p: PC, self: nat): (Fields, PC) {
    match p
    case Idle => (f, p)
    case Acquire => (f.(lock := By(self)), Decrement)
    case Decrement =>
      (f.(current := f.current - 1, cur := f.cur.(entered := f.cur.entered + 1)),
       if f.current - 1 == 0 then Transfer(|f.done|) else Release(|f.done|))
    case Transfer(r) => (f.(lock := Proxy), PostAll(r))
    case PostAll(r) => (if f.height > 1 then f.(sem := f.sem + (f.height - 1)) else f, Increment(r))
    case Release(r) => (f.(lock := Free), SemWait(r))
    case SemWait(r) => (f.(sem := f.sem - 1), Increment(r))
    case Increment(r) =>
      if f.current + 1 == f.height then (Leave(f, r, 1).(current := f.current + 1), ReleaseProxy(r))
      else (Leave(f, r, 0).(current := f.current + 1), Idle)
    case ReleaseProxy(r) => (f.(lock := Free, done := f.done + [f.cur], cur := Round(0, 0, 0)), Idle)
  }

  predicate CanAdvance(s: State, t: nat) {
    t < |s.pc| && Ready(s.f, s.pc[t])
  }

  function Advance(s: State, t: nat): State
    requires CanAdvance(s, t)
  {
    var (f, p) := Step(s.f, s.pc[t], t);
    State(f, s.pc[t := p])
  }

  ghost predicate Continue(s: State, s': State) {
    exists t: nat :: CanAdvance(s, t) && s' == Advance(s, t)
  }

  ghost predicate Begin(s: State, s': State) {
    exists t: nat :: t < |s.pc| && s.pc[t] == Idle && s' == s.(pc := s.pc[t := Acquire])
  }

  ghost predicate Next(s: State, s': State) {
    Continue(s, s') || Begin(s, s')
  }

  ghost predicate Init(s: State) {
    && s.f.height > 0 && s.f == Fields(s.f.height, s.f.height, Free, 0, [], Round(0, 0, 0))
    && forall t :: 0 <= t < |s.pc| ==> s.pc[t] == Idle
  }

  // --------------------------------------------------------- invariant

  function HoldsLock(p: PC): int { if p.Decrement? || p.Release? || p.Transfer? then 1 else 0 }

  function Waiter(p: PC): int { if p.Release? || p.SemWait? then 1 else 0 }

  function Last(p: PC): int { if p.Transfer? || p.PostAll? then 1 else 0 }

  function Transferring(p: PC): int { if p.Transfer? then 1 else 0 }

  function Leaver(p: PC): int { if p.Increment? then 1 else 0 }

  function Closer(p: PC): int { if p.ReleaseProxy? then 1 else 0 }

  /** Threads between their decrement and their return. */
  predicate InRound(p: PC) { !p.Idle? && !p.Acquire? && !p.Decrement? }

  /** The counters against the round under way, and against the number of lock
  holders, waiters, last arrivals, last arrivals still to transfer the lock,
  leavers, and closers. */
  predicate Balanced(f: Fields, holders: int, waiters: int, last: int, transferring: int, leavers: int, closers: int) {
    && f.height > 0
    && holders == (if f.lock.By? then 1 else 0)
    && 0 <= f.cur.left <= f.cur.entered <= f.height
    && waiters + last + leavers + f.cur.left == f.cur.entered
    && closers == f.cur.serial == (if f.cur.left == f.height then 1 else 0)
    && 0 <= transferring <= last && 0 <= waiters && 0 <= leavers
    && (if f.cur.entered < f.height then
          && last == 0 && leavers == 0 && f.cur.left == 0 && f.sem == 0
          && f.current == f.height - f.cur.entered && !f.lock.Proxy?
        else
          && f.current == f.cur.left
          && (last == 0 || (last == 1 && leavers == 0 && f.cur.left == 0))
          && (last == 0 ==> leavers + f.cur.left > 0)
          && f.sem == (if last == 0 then waiters else 0)
          && (f.lock.Proxy? <==> transferring == 0) && (transferring == 1 ==> f.lock.By?))
  }

  ghost predicate Complete(f: Fields) {
    forall i :: 0 <= i < |f.done| ==> f.done[i] == Round(f.height, f.height, 1)
  }

  /** What holds of the fields when thread t is at p. */
  predicate Local(f: Fields, p: PC, t: nat) {
    && (HoldsLock(p) == 1 <==> f.lock == By(t))
    && (InRound(p) ==> p.r == |f.done|)
  }

  ghost predicate CountInv(f: Fields, pc: seq<PC>) {
    Balanced(f, Sum(pc, HoldsLock), Sum(pc, Waiter), Sum(pc, Last), Sum(pc, Transferring), Sum(pc, Leaver),
             Sum(pc, Closer))
  }

  ghost predicate Inv(s: State) {
    && CountInv(s.f, s.pc) && Complete(s.f)
    && forall t: nat :: t < |s.pc| ==> Local(s.f, s.pc[t], t)
  }

  lemma InitInv(s: State)
    requires Init(s)
    ensures Inv(s)
  {
    forall t: nat | t < |s.pc| ensures s.pc[t] == Idle {}
    SumZero(s.pc, HoldsLock);
    SumZero(s.pc, Waiter);
    SumZero(s.pc, Last);
    SumZero(s.pc, Transferring);
    SumZero(s.pc, Leaver);
    SumZero(s.pc, Closer);
  }

  lemma StepBalanced(f: Fields, p: PC, self: nat, h: int, w: int, l: int, x: int, i: int, c: int)
    requires Ready(f, p) && Local(f, p, self) && Balanced(f, h, w, l, x, i, c)
    requires HoldsLock(p) <= h && Waiter(p) <= w && Leaver(p) <= i && Closer(p) <= c
    requires Transferring(p) <= x && 0 <= x - Transferring(p) <= h - HoldsLock(p) && x - Transferring(p) <= l - Last(p)
    ensures var (f', p') := Step(f, p, self);
            && f'.height == f.height
            && Balanced(f', h - HoldsLock(p) + HoldsLock(p'), w - Waiter(p) + Waiter(p'), l - Last(p) + Last(p'),
                        x - Transferring(p) + Transferring(p'), i - Leaver(p) + Leaver(p'), c - Closer(p) + Closer(p'))
  {
  }

  lemma StepKeepsComplete(f: Fields, p: PC, self: nat)
    requires Local(f, p, self) && Complete(f)
    requires p.ReleaseProxy? ==> f.cur == Round(f.height, f.height, 1)
    ensures Complete(Step(f, p, self).0)
  {
  }

  lemma StepKeepsOwn(f: Fields, p: PC, self: nat)
    requires Ready(f, p) && Local(f, p, self)
    ensures var (f', p') := Step(f, p, self); Local(f', p', self)
  {
  }

  lemma StepKeepsOther(f: Fields, p: PC, self: nat, q: PC, other: nat)
    requires Ready(f, p) && Local(f, p, self) && Local(f, q, other) && self != other
    requires p.ReleaseProxy? ==> !InRound(q) && f.lock.Proxy?
    ensures Local(Step(f, p, self).0, q, other)
  {
  }

  lemma SumsAfterMove(pc: seq<PC>, t: nat, p: PC)
    requires t < |pc|
    ensures Sum(pc[t := p], HoldsLock) == Sum(pc, HoldsLock) - HoldsLock(pc[t]) + HoldsLock(p)
    ensures Sum(pc[t := p], Waiter) == Sum(pc, Waiter) - Waiter(pc[t]) + Waiter(p)
    ensures Sum(pc[t := p], Last) == Sum(pc, Last) - Last(pc[t]) + Last(p)
    ensures Sum(pc[t := p], Transferring) == Sum(pc, Transferring) - Transferring(pc[t]) + Transferring(p)
    ensures Sum(pc[t := p], Leaver) == Sum(pc, Leaver) - Leaver(pc[t]) + Leaver(p)
    ensures Sum(pc[t := p], Closer) == Sum(pc, Closer) - Closer(pc[t]) + Closer(p)
  {
    SumUpdate(pc, t, p, HoldsLock);
    SumUpdate(pc, t, p, Waiter);
    SumUpdate(pc, t, p, Last);
    SumUpdate(pc, t, p, Transferring);
    SumUpdate(pc, t, p, Leaver);
    SumUpdate(pc, t, p, Closer);
  }

  /** The other threads' share of each sum. */
  lemma SumsCover(pc: seq<PC>, t: nat)
    requires t < |pc|
    ensures HoldsLock(pc[t]) <= Sum(pc, HoldsLock) && Waiter(pc[t]) <= Sum(pc, Waiter)
    ensures Leaver(pc[t]) <= Sum(pc, Leaver) && Closer(pc[t]) <= Sum(pc, Closer)
    ensures 0 <= Sum(pc, Transferring) - Transferring(pc[t]) <= Sum(pc, HoldsLock) - HoldsLock(pc[t])
    ensures Sum(pc, Transferring) - Transferring(pc[t]) <= Sum(pc, Last) - Last(pc[t])
  {
    SumsAfterMove(pc, t, Idle);
    var rest := pc[t := Idle];
    SumBounds(rest, HoldsLock);
    SumBounds(rest, Waiter);
    SumBounds(rest, Transferring);
    SumBounds(rest, Leaver);
    SumBounds(rest, Closer);
    SumMonotone(rest, Transferring, Last);
    SumMonotone(rest, Transferring, HoldsLock);
  }

  /** When the last thread out releases the lock, nobody else is in the round. */
  lemma CloserIsAlone(s: State, t: nat)
    requires Inv(s) && t < |s.pc| && s.pc[t].ReleaseProxy?
    ensures s.f.cur == Round(s.f.height, s.f.height, 1) && s.f.lock.Proxy?
    ensures forall j: nat :: j < |s.pc| && j != t ==> !InRound(s.pc[j])
  {
    hide Sum;
    SumsCover(s.pc, t);
    forall j: nat | j < |s.pc| && j != t ensures !InRound(s.pc[j]) {
      SumsAfterMove(s.pc, t, Idle);
      SumsCover(s.pc[t := Idle], j);
      SumBounds(s.pc[t := Idle], Transferring);
    }
  }

  lemma AdvanceCounts(s: State, t: nat)
    requires Inv(s) && CanAdvance(s, t)
    ensures CountInv(Advance(s, t).f, Advance(s, t).pc) && Advance(s, t).f.height == s.f.height
  {
    hide Sum, Step, Local, Balanced, Complete;
    SumsAfterMove(s.pc, t, Step(s.f, s.pc[t], t).1);
    SumsCover(s.pc, t);
    StepBalanced(s.f, s.pc[t], t, Sum(s.pc, HoldsLock), Sum(s.pc, Waiter), Sum(s.pc, Last), Sum(s.pc, Transferring),
                 Sum(s.pc, Leaver), Sum(s.pc, Closer));
  }

  lemma AdvanceInv(s: State, t: nat)
    requires Inv(s) && CanAdvance(s, t)
    ensures Inv(Advance(s, t))
  {
    hide Sum, Step, Local, Balanced, Complete, CountInv;
    AdvanceCounts(s, t);
    if s.pc[t].ReleaseProxy? { CloserIsAlone(s, t); }
    StepKeepsComplete(s.f, s.pc[t], t);
    StepKeepsOwn(s.f, s.pc[t], t);
    forall j: nat | j < |s.pc| && j != t ensures Local(Advance(s, t).f, s.pc[j], j) {
      StepKeepsOther(s.f, s.pc[t], t, s.pc[j], j);
    }
  }

  lemma BeginInv(s: State, t: nat)
    requires Inv(s) && t < |s.pc| && s.pc[t] == Idle
    ensures Inv(s.(pc := s.pc[t := Acquire]))
  {
    hide Sum, Balanced;
    SumsAfterMove(s.pc, t, Acquire);
    assert Local(s.f, s.pc[t], t);
  }

  lemma NextInv()
    ensures Preserves(Inv, Next)
  {
    hide Inv, Advance, CanAdvance;
    forall s, s' | Inv(s) && Next(s, s') ensures Inv(s') {
      if Continue(s, s') {
        var t: nat :| CanAdvance(s, t) && s' == Advance(s, t);
        AdvanceInv(s, t);
      } else {
        var t: nat :| t < |s.pc| && s.pc[t] == Idle && s' == s.(pc := s.pc[t := Acquire]);
        BeginInv(s, t);
      }
    }
  }

  ghost predicate Reached(s: State) {
    Reachable(Init, Next, s)
  }

  lemma ReachedInv(s: State)
    requires Reached(s)
    ensures Inv(s)
  {
    NextInv();
    forall s0 | Init(s0) ensures Inv(s0) { InitInv(s0); }
    ReachableInvariant(Init, Inv, Next, s);
  }

  // ---------------------------------------------------------- theorems

  /** Every finished round had all its threads enter and leave and told exactly
  one of them it is the serial thread; nobody has left the round under way
  unless all have entered it. */
  lemma RoundsAreComplete(s: State)
    requires Reached(s)
    ensures forall i :: 0 <= i < |s.f.done| ==> s.f.done[i] == Round(s.f.height, s.f.height, 1)
    ensures s.f.cur.left > 0 ==> s.f.cur.entered == s.f.height
    ensures s.f.cur.serial == if s.f.cur.left == s.f.height then 1 else 0
  {
    ReachedInv(s);
  }

  /** A thread that is past the semaphore or able to pass it belongs to the
  round under way, and nInitialBarrierHeight threads have entered that round. */
  lemma NobodyLeavesEarly(s: State, t: nat)
    requires Reached(s) && t < |s.pc|
    requires s.pc[t].Increment? || s.pc[t].ReleaseProxy? || (s.pc[t].SemWait? && s.f.sem > 0)
    ensures s.pc[t].r == |s.f.done| && s.f.cur.entered == s.f.height
  {
    ReachedInv(s);
    hide Sum;
    assert Local(s.f, s.pc[t], t);
    SumsCover(s.pc, t);
  }

  /** A thread that enters finds every earlier round left by all, nobody
  leaving, room in the round, and the semaphore at 0. */
  lemma NobodyEntersEarly(s: State, t: nat)
    requires Reached(s) && t < |s.pc| && s.pc[t].Decrement?
    ensures s.f.cur.left == 0 && s.f.cur.entered < s.f.height && s.f.sem == 0
    ensures forall i :: 0 <= i < |s.f.done| ==> s.f.done[i].left == s.f.height
    ensures var s' := Advance(s, t); s'.f.cur == s.f.cur.(entered := s.f.cur.entered + 1) && s'.pc[t].r == |s'.f.done|
  {
    ReachedInv(s);
    hide Sum;
    assert Local(s.f, s.pc[t], t);
    SumsCover(s.pc, t);
  }

  /** The unsigned height never passes below 0 or above its initial value, and
  the semaphore holds no token except while a full round is being left. */
  lemma HeightAndTokenBounds(s: State)
    requires Reached(s)
    ensures 0 <= s.f.current <= s.f.height && 0 <= s.f.sem < s.f.height
    ensures !s.f.lock.Proxy? ==> s.f.sem == 0
    ensures s.f.lock.Free? ==> s.f.current == s.f.height - s.f.cur.entered && s.f.cur.left == 0
  {
    ReachedInv(s);
    hide Sum;
    SumBounds(s.pc, Waiter);
    SumBounds(s.pc, Leaver);
    SumBounds(s.pc, Transferring);
    SumMonotone(s.pc, Transferring, HoldsLock);
  }

  // ---------------------------------------------------------- progress

  function Rank(p: PC): int {
    match p
    case Idle => 0
    case Acquire => 8
    case Decrement => 7
    case Release(_) => 6
    case SemWait(_) => 5
    case Transfer(_) => 6
    case PostAll(_) => 5
    case Increment(_) => 4
    case ReleaseProxy(_) => 3
  }

  ghost function Measure(s: State): int {
    Sum(s.pc, Rank)
  }

  lemma ContinueLowersMeasure()
    ensures Preserves(Inv, Continue)
    ensures Lowers(Inv, Continue, Measure)
  {
    hide Sum, Inv;
    forall s, s' | Inv(s) && Continue(s, s') ensures Inv(s') && 0 <= Measure(s') < Measure(s) {
      var t: nat :| CanAdvance(s, t) && s' == Advance(s, t);
      AdvanceInv(s, t);
      SumUpdate(s.pc, t, s'.pc[t], Rank);
      SumBounds(s'.pc, Rank);
    }
  }

  /** Whoever is still inside waits for a round that too few threads entered. */
  ghost predicate Gathering(s: State) {
    && s.f.lock.Free? && s.f.cur.entered == Sum(s.pc, Waiter) < s.f.height
    && forall t: nat :: t < |s.pc| ==> s.pc[t] == Idle || s.pc[t] == SemWait(|s.f.done|)
  }

  lemma StuckIsGathering(s: State)
    requires Inv(s) && Stuck(Continue, s)
    ensures Gathering(s)
  {
    hide Sum, Step;
    forall t: nat | t < |s.pc|
      ensures Local(s.f, s.pc[t], t)
      ensures Last(s.pc[t]) == Leaver(s.pc[t]) == Transferring(s.pc[t]) == Closer(s.pc[t]) == 0
      ensures s.pc[t] == Idle || (s.pc[t] == Acquire && !s.f.lock.Free?) || (s.pc[t].SemWait? && s.f.sem <= 0)
    {
      assert CanAdvance(s, t) ==> Continue(s, Advance(s, t));
    }
    SumZero(s.pc, HoldsLock);
    SumZero(s.pc, Last);
    SumZero(s.pc, Leaver);
    SumZero(s.pc, Transferring);
    SumZero(s.pc, Closer);
    if s.f.sem <= 0 {
      SumBounds(s.pc, Waiter);
    } else {
      SumZero(s.pc, Waiter);
    }
  }

  /** Left alone, every round that nInitialBarrierHeight threads have entered is
  left by all of them and the lock is released for the next one. */
  lemma FullRoundsDrain(s: State)
    requires Reached(s)
    ensures Settles(Continue, Measure, Gathering, s)
  {
    ReachedInv(s);
    ContinueLowersMeasure();
    SumBounds(s.pc, Rank);
    forall s0 | Inv(s0) && Stuck(Continue, s0) ensures Gathering(s0) { StuckIsGathering(s0); }
    Settle(Inv, Continue, Measure, Gathering, s);
  }

  // ------------------------------------------- every call is in some round

  /** A thread that has called and not yet entered a round. */
  function Arriving(p: PC): int { if p.Acquire? || p.Decrement? then 1 else 0 }

  /** The calls that the rounds so far and the arriving threads account for. */
  ghost function Accounted(s: State): int {
    s.f.height * |s.f.done| + s.f.cur.entered + Sum(s.pc, Arriving)
  }

  lemma AdvanceAccounted(s: State, t: nat)
    requires Inv(s) && CanAdvance(s, t)
    ensures var s' := Advance(s, t); Accounted(s') == Accounted(s) && !Begin(s, s') && s'.f.height == s.f.height
  {
    hide Sum;
    var s' := Advance(s, t);
    SumUpdate(s.pc, t, s'.pc[t], Arriving);
    if s.pc[t].ReleaseProxy? { CloserIsAlone(s, t); }
    assert Local(s.f, s.pc[t], t);
    assert s.pc[t] != Idle;
    forall u: nat | u < |s.pc| && s.pc[u] == Idle ensures s'.pc[u] == Idle {}
  }

  lemma BeginAccounted(s: State, s': State)
    requires Begin(s, s')
    ensures Accounted(s') == Accounted(s) + 1 && s'.f.height == s.f.height
  {
    hide Sum;
    var t: nat :| t < |s.pc| && s.pc[t] == Idle && s' == s.(pc := s.pc[t := Acquire]);
    SumUpdate(s.pc, t, Acquire, Arriving);
  }

  lemma CallsAreAccounted(run: seq<State>)
    requires Path(Next, run) && Init(run[0])
    ensures Count(Begin, run) == Accounted(run[|run| - 1]) && Inv(run[|run| - 1])
  {
    hide Inv, Begin, Advance, CanAdvance, Accounted;
    InitInv(run[0]);
    NextInv();
    forall s, s' | Inv(s) && Next(s, s') ensures Accounted(s') == Accounted(s) + if Begin(s, s') then 1 else 0 {
      if Continue(s, s') {
        var t: nat :| CanAdvance(s, t) && s' == Advance(s, t);
        AdvanceAccounted(s, t);
      } else {
        BeginAccounted(s, s');
      }
    }
    CountIsBalance(Inv, Next, Begin, Accounted, run);
    InvariantAlongRun(Inv, Next, run);
    NothingAccounted(run[0]);
  }

  lemma NothingAccounted(s: State)
    requires Init(s)
    ensures Accounted(s) == 0
  {
    SumZero(s.pc, Arriving);
  }

  /** On a run that has nothing left to do, the calls made divide into rounds
  that are over, height calls each, and the remainder, which waits for the
  next round. */
  lemma CallsFillRounds(run: seq<State>)
    requires Path(Next, run) && Init(run[0]) && Stuck(Continue, run[|run| - 1])
    ensures var s, n := run[|run| - 1], Count(Begin, run);
            && n == s.f.height * |s.f.done| + Sum(s.pc, Waiter) && 0 <= Sum(s.pc, Waiter) < s.f.height
            && forall t: nat :: t < |s.pc| ==> s.pc[t] == Idle || s.pc[t] == SemWait(|s.f.done|)
  {
    hide Inv, Init, Continue, Sum;
    var s, n := run[|run| - 1], Count(Begin, run);
    CallsAreAccounted(run);
    StuckIsGathering(s);
    SumZero(s.pc, Arriving);
    SumBounds(s.pc, Waiter);
  }

  // ------------------------------------- the regions as the source runs them

  /** pthread_barrier_t_, with the lock's holder and the history. */
  class BarrierRecord {
    const nInitialBarrierHeight: int
    var nCurrentBarrierHeight: int
    var semBarrierBreeched: int
    ghost var lock: Lock
    ghost var done: seq<Round>
    ghost var cur: Round

    ghost function Contents(): Fields
      reads this
    {
      Fields(nInitialBarrierHeight, nCurrentBarrierHeight, lock, semBarrierBreeched, done, cur)
    }

    constructor (count: int)
      requires count > 0
      ensures Contents() == Fields(count, count, Free, 0, [], Round(0, 0, 0))
    {
      nInitialBarrierHeight, nCurrentBarrierHeight, semBarrierBreeched := count, count, 0;
      lock, done, cur := Free, [], Round(0, 0, 0);
    }

    /** One thread more has arrived; is it the last? */
    method Arrive(ghost self: nat) returns (last: bool)
      modifies this
      ensures (Contents(), if last then Transfer(|done|) else Release(|done|)) == Step(old(Contents()), Decrement, self)
      ensures last <==> nCurrentBarrierHeight == 0
    {
      cur := cur.(entered := cur.entered + 1);
      nCurrentBarrierHeight := nCurrentBarrierHeight - 1;
      last := 0 == nCurrentBarrierHeight;
    }

    /** The last to arrive releases all the others at once. */
    method Open(ghost self: nat)
      modifies this
      ensures Contents() == Step(old(Contents()), PostAll(|done|), self).0
      ensures semBarrierBreeched ==
        old(semBarrierBreeched) + if nInitialBarrierHeight > 1 then nInitialBarrierHeight - 1 else 0
    {
      if nInitialBarrierHeight > 1 {
        semBarrierBreeched := semBarrierBreeched + (nInitialBarrierHeight - 1);
      }
    }

    /** One thread leaves the round under way; the last is the serial thread. */
    method Depart(ghost self: nat) returns (serial: bool)
      modifies this
      ensures (Contents(), if serial then ReleaseProxy(|done|) else Idle)
           == Step(old(Contents()), Increment(|done|), self)
      ensures serial <==> nCurrentBarrierHeight == nInitialBarrierHeight
    {
      nCurrentBarrierHeight := nCurrentBarrierHeight + 1;
      serial := nCurrentBarrierHeight == nInitialBarrierHeight;
      cur := cur.(left := cur.left + 1, serial := cur.serial + if serial then 1 else 0);
    }
  }
}
