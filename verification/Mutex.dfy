/** The non-robust mutex: the 0/1/-1 lock word of pthread_mutex_lock.c,
pthread_mutex_timedlock.c, pthread_mutex_trylock.c and pthread_mutex_unlock.c,
its auto-reset event, and the owner and count of the recursive and
error-checking kinds.

One step is one interlocked operation, one event operation, or one access to
the owner record.  A program counter that carries a depth d belongs to a call
made while the thread already holds the mutex d times. */
module Mutex {
  import opened Threads

  datatype Kind = Normal | Recursive | ErrorCheck

  datatype PC =
    | Idle
    // pthread_mutex_lock, pthread_mutex_timedlock
    | LFirst(d: nat, timed: bool)      // first interlocked operation
    | LReadOwner(d: nat, timed: bool)  // comparing ownerThread with self
    | LSwap(timed: bool)               // exchanging -1
    | LBlocked(timed: bool)            // waiting for the event
    | LSetCount                        // word taken; recursive_count = 1
    | LSetOwner                        // word taken; ownerThread = self
    // pthread_mutex_trylock
    | TFirst(d: nat)
    | TReadOwner(d: nat)
    // between calls
    | Held(d: nat)
    // pthread_mutex_unlock
    | UReadOwner(d: nat)
    | UClear                           // ownerThread = NULL
    | UXchg                            // exchanging 0
    | USet                             // setting the event

  /** The fields of pthread_mutex_t_. */
  datatype Fields = Fields(
    kind: Kind,
    word: int,             // lock_idx
    event: bool,
    owner: Option<nat>,    // ownerThread
    count: int)            // recursive_count

  datatype State = State(m: Fields, pc: seq<PC>)

  /** Where a call that changed nothing returns to. */
  function Back(d: nat): PC {
    if d == 0 then Idle else Held(d)
  }

  function Taken(kind: Kind): PC {
    if kind == Normal then Held(1) else LSetCount
  }

  predicate Ready(m: Fields, p: PC) {
    match p
    case Idle => false
    case LBlocked(_) => m.event
    case _ => true
  }

  /** What thread self does next at p, when it is neither blocked nor idle.  A
  holder goes on by calling unlock. */
  function Step(m: Fields, p: PC, self: nat): (Fields, PC) {
    match p
    case Idle => (m, p)
    case LFirst(d, timed) =>
      if m.kind == Normal then (m.(word := 1), if m.word == 0 then Held(1) else LSwap(timed))
      else if m.word == 0 then (m.(word := 1), LSetCount)
      else (m, LReadOwner(d, timed))
    case LReadOwner(d, timed) =>
      if m.owner != Some(self) then (m, LSwap(timed))
      else if m.kind == Recursive then (m.(count := m.count + 1), Held(d + 1))
      else (m, Back(d))
    case LSwap(timed) => (m.(word := -1), if m.word == 0 then Taken(m.kind) else LBlocked(timed))
    case LBlocked(timed) => (m.(event := false), LSwap(timed))
    case LSetCount => (m.(count := 1), LSetOwner)
    case LSetOwner => (m.(owner := Some(self)), Held(1))
    case TFirst(d) =>
      if m.word == 0 then (m.(word := 1), Taken(m.kind))
      else (m, if m.kind == Recursive then TReadOwner(d) else Back(d))
    case TReadOwner(d) =>
      if m.owner == Some(self) then (m.(count := m.count + 1), Held(d + 1)) else (m, Back(d))
    case Held(d) => (m, if m.kind == Normal then UXchg else UReadOwner(d))
    case UReadOwner(d) =>
      if m.owner != Some(self) then (m, Back(d))
      else if m.kind != Recursive then (m, UClear)
      else (m.(count := m.count - 1), if m.count - 1 == 0 then UClear else Held(if d > 0 then d - 1 else 0))
    case UClear => (m.(owner := None), UXchg)
    case UXchg => (m.(word := 0), if m.word < 0 then USet else Idle)
    case USet => (m.(event := true), Idle)
  }

  predicate CanAdvance(s: State, t: nat) {
    t < |s.pc| && Ready(s.m, s.pc[t])
  }

  function Advance(s: State, t: nat): State
    requires CanAdvance(s, t)
  {
    var (m, p) := Step(s.m, s.pc[t], t);
    State(m, s.pc[t := p])
  }

  /** Calls, and timeouts of blocked timed calls.  The normal kind may not be
  relocked by its holder nor unlocked by anybody else; the other kinds may. */
  predicate Call(m: Fields, p: PC, p': PC) {
    match p
    case Idle =>
      || p' == LFirst(0, false) || p' == LFirst(0, true) || p' == TFirst(0)
      || (m.kind != Normal && p' == UReadOwner(0))
    case Held(d) =>
      || p' == TFirst(d)
      || (m.kind != Normal && (p' == LFirst(d, false) || p' == LFirst(d, true)))
    case LBlocked(timed) => timed && p' == Idle
    case _ => false
  }

  ghost predicate Begin(s: State, s': State) {
    exists t: nat, p: PC :: t < |s.pc| && Call(s.m, s.pc[t], p) && s' == s.(pc := s.pc[t := p])
  }

  ghost predicate Continue(s: State, s': State) {
    exists t: nat :: CanAdvance(s, t) && s' == Advance(s, t)
  }

  ghost predicate Next(s: State, s': State) {
    Continue(s, s') || Begin(s, s')
  }

  ghost predicate Init(s: State) {
    && s.m.word == 0 && !s.m.event && s.m.owner == None
    && forall t :: 0 <= t < |s.pc| ==> s.pc[t] == Idle
  }

  // --------------------------------------------------------- invariant

  /** The depth at which a thread holds the mutex in the middle of a call. */
  function Depth(p: PC): nat {
    match p
    case LFirst(d, _) => d
    case LReadOwner(d, _) => d
    case TFirst(d) => d
    case TReadOwner(d) => d
    case Held(d) => d
    case UReadOwner(d) => d
    case _ => 0
  }

  /** Threads that own the lock word. */
  function Holds(p: PC): int {
    if Depth(p) > 0 || p.LSetCount? || p.LSetOwner? || p.UClear? || p.UXchg? then 1 else 0
  }

  /** Threads whose identity is in ownerThread. */
  predicate Named(kind: Kind, p: PC) {
    kind != Normal && (Depth(p) > 0 || p.UClear?)
  }

  function Blocked(p: PC): int { if p.LBlocked? then 1 else 0 }

  /** Threads about to exchange -1, or about to set the event. */
  function Rescuer(p: PC): int { if p.LSwap? || p.USet? then 1 else 0 }

  /** What holds of the fields when thread t is at p. */
  ghost predicate Local(m: Fields, p: PC, t: nat) {
    && (Named(m.kind, p) <==> m.owner == Some(t))
    && (Depth(p) > 0 && m.kind == Recursive ==> m.count == Depth(p))
    && (Depth(p) > 1 ==> m.kind == Recursive)
    && (p.LSetOwner? ==> m.count == 1)
    && (p.Held? ==> p.d > 0)
    && (m.kind == Normal ==> !p.LSetCount? && !p.LSetOwner? && !p.UClear? && !p.LReadOwner? && !p.UReadOwner?
                             && !(p.LFirst? && p.d > 0))
    && (p.TReadOwner? ==> m.kind == Recursive)
  }

  /** The lock word against the number of holders, blocked threads and rescuers. */
  ghost predicate Word(m: Fields, holders: int, blocked: int, rescuers: int) {
    && -1 <= m.word <= 1
    && holders == (if m.word == 0 then 0 else 1)
    && (blocked > 0 ==> m.word == -1 || m.event || rescuers > 0)
  }

  ghost predicate Inv(s: State) {
    && Word(s.m, Sum(s.pc, Holds), Sum(s.pc, Blocked), Sum(s.pc, Rescuer))
    && forall t: nat :: t < |s.pc| ==> Local(s.m, s.pc[t], t)
  }

  lemma InitInv(s: State)
    requires Init(s)
    ensures Inv(s)
  {
    forall t: nat | t < |s.pc| ensures s.pc[t] == Idle {}
    SumZero(s.pc, Holds);
    SumZero(s.pc, Blocked);
  }

  lemma StepKeepsWord(m: Fields, p: PC, self: nat, holders: int, blocked: int, rescuers: int)
    requires Ready(m, p) && Local(m, p, self) && Word(m, holders, blocked, rescuers)
    requires Holds(p) <= holders && Rescuer(p) <= rescuers
    ensures var (m', p') := Step(m, p, self);
            Word(m', holders - Holds(p) + Holds(p'), blocked - Blocked(p) + Blocked(p'),
                 rescuers - Rescuer(p) + Rescuer(p'))
  {
  }

  lemma StepKeepsOwn(m: Fields, p: PC, self: nat, holders: int)
    requires Ready(m, p) && Local(m, p, self) && Holds(p) <= holders && holders == (if m.word == 0 then 0 else 1)
    ensures var (m', p') := Step(m, p, self); m'.kind == m.kind && Local(m', p', self)
  {
  }

  lemma StepKeepsOther(m: Fields, p: PC, self: nat, q: PC, other: nat)
    requires Ready(m, p) && Local(m, p, self) && Local(m, q, other) && self != other
    requires Holds(p) + Holds(q) <= 1
    ensures Local(Step(m, p, self).0, q, other)
  {
  }

  lemma CallKeeps(m: Fields, p: PC, p': PC, self: nat)
    requires Call(m, p, p') && Local(m, p, self)
    ensures Local(m, p', self) && Holds(p') == Holds(p) && Blocked(p') <= Blocked(p) && Rescuer(p') == Rescuer(p)
  {
  }

  lemma SumsAfterMove(pc: seq<PC>, t: nat, p: PC)
    requires t < |pc|
    ensures Sum(pc[t := p], Holds) == Sum(pc, Holds) - Holds(pc[t]) + Holds(p)
    ensures Sum(pc[t := p], Blocked) == Sum(pc, Blocked) - Blocked(pc[t]) + Blocked(p)
    ensures Sum(pc[t := p], Rescuer) == Sum(pc, Rescuer) - Rescuer(pc[t]) + Rescuer(p)
    ensures Holds(pc[t]) <= Sum(pc, Holds) && Rescuer(pc[t]) <= Sum(pc, Rescuer)
    ensures forall j :: 0 <= j < |pc| && j != t ==> Holds(pc[t]) + Holds(pc[j]) <= Sum(pc, Holds)
  {
    SumUpdate(pc, t, p, Holds);
    SumUpdate(pc, t, p, Blocked);
    SumUpdate(pc, t, p, Rescuer);
    SumBounds(pc, Holds);
    SumBounds(pc, Rescuer);
    forall j | 0 <= j < |pc| && j != t ensures Holds(pc[t]) + Holds(pc[j]) <= Sum(pc, Holds) {
      SumPair(pc, t, j, Holds);
    }
  }

  lemma AdvanceInv(s: State, t: nat)
    requires Inv(s) && CanAdvance(s, t)
    ensures Inv(Advance(s, t))
  {
    hide Sum, Step, Local, Ready;
    var (m, p) := Step(s.m, s.pc[t], t);
    SumsAfterMove(s.pc, t, p);
    StepKeepsWord(s.m, s.pc[t], t, Sum(s.pc, Holds), Sum(s.pc, Blocked), Sum(s.pc, Rescuer));
    StepKeepsOwn(s.m, s.pc[t], t, Sum(s.pc, Holds));
    forall j: nat | j < |s.pc| && j != t ensures Local(m, s.pc[j], j) {
      StepKeepsOther(s.m, s.pc[t], t, s.pc[j], j);
    }
  }

  lemma BeginInv(s: State, t: nat, p: PC)
    requires Inv(s) && t < |s.pc| && Call(s.m, s.pc[t], p)
    ensures Inv(s.(pc := s.pc[t := p]))
  {
    hide Sum, Local, Call;
    SumsAfterMove(s.pc, t, p);
    CallKeeps(s.m, s.pc[t], p, t);
  }

  lemma NextInv()
    ensures Preserves(Inv, Next)
  {
    hide Inv, Advance, CanAdvance, Call;
    forall s, s' | Inv(s) && Next(s, s') ensures Inv(s') {
      if Continue(s, s') {
        var t: nat :| CanAdvance(s, t) && s' == Advance(s, t);
        AdvanceInv(s, t);
      } else {
        var t: nat, p: PC :| t < |s.pc| && Call(s.m, s.pc[t], p) && s' == s.(pc := s.pc[t := p]);
        BeginInv(s, t, p);
      }
    }
  }

  ghost predicate Reached(s: State) {
    Reachable(Init, Next, s)
  }

  lemma ReachedInv(s: State)
    requires Reached(s)
    ensures Inv(s)
  {
    NextInv();
    forall s0 | Init(s0) ensures Inv(s0) { InitInv(s0); }
    ReachableInvariant(Init, Inv, Next, s);
  }

  // ---------------------------------------------------------- theorems

  /** At most one thread holds the mutex, and the word is 0 exactly when none does. */
  lemma MutualExclusion(s: State)
    requires Reached(s)
    ensures forall t, u | 0 <= t < u < |s.pc| :: Holds(s.pc[t]) + Holds(s.pc[u]) <= 1
    ensures s.m.word == 0 <==> forall t :: 0 <= t < |s.pc| ==> Holds(s.pc[t]) == 0
  {
    ReachedInv(s);
    hide Sum;
    SumBounds(s.pc, Holds);
    forall t, u | 0 <= t < u < |s.pc| ensures Holds(s.pc[t]) + Holds(s.pc[u]) <= 1 {
      SumPair(s.pc, t, u, Holds);
    }
    if s.m.word != 0 {
      var t := SumWitness(s.pc, Holds);
    }
  }

  /** The unlocked comparison of ownerThread with self is true exactly for a
  thread that already holds the mutex, and then recursive_count is its depth. */
  lemma OwnerReadIsExact(s: State, t: nat)
    requires Reached(s) && t < |s.pc|
    requires s.pc[t].LReadOwner? || s.pc[t].TReadOwner? || s.pc[t].UReadOwner?
    ensures s.m.owner == Some(t) <==> Depth(s.pc[t]) > 0
    ensures Depth(s.pc[t]) > 0 && s.m.kind == Recursive ==> s.m.count == Depth(s.pc[t])
  {
    ReachedInv(s);
    assert Local(s.m, s.pc[t], t);
  }

  /** If any thread is blocked, a wakeup is on its way or will be when the
  holder unlocks, even though a newcomer may have overwritten -1 with 1. */
  lemma NoStrandedWaiter(s: State, t: nat)
    requires Reached(s) && t < |s.pc| && s.pc[t].LBlocked?
    ensures s.m.word == -1 || s.m.event || exists u :: 0 <= u < |s.pc| && (s.pc[u].LSwap? || s.pc[u].USet?)
    ensures s.m.word == -1 ==> exists u :: 0 <= u < |s.pc| && Holds(s.pc[u]) == 1
  {
    ReachedInv(s);
    hide Sum;
    SumBounds(s.pc, Blocked);
    assert Blocked(s.pc[t]) == 1;
    if Sum(s.pc, Rescuer) > 0 {
      var u := SumWitness(s.pc, Rescuer);
    }
    if s.m.word == -1 {
      var u := SumWitness(s.pc, Holds);
    }
  }

  // ------------------------------------------------ every caller gets its turn

  /** In an untimed lock by a thread that does not hold the mutex. */
  predicate Trying(p: PC) {
    || p == LFirst(0, false) || p == LReadOwner(0, false) || p == LSwap(false) || p == LBlocked(false)
    || p.LSetCount? || p.LSetOwner?
  }

  lemma TryingAdvance(s: State, t: nat, u: nat)
    requires Inv(s) && CanAdvance(s, u) && t < |s.pc| && Trying(s.pc[t])
    ensures t < |Advance(s, u).pc| && (Trying(Advance(s, u).pc[t]) || Advance(s, u).pc[t] == Held(1))
  {
    hide Sum, Word;
    assert Local(s.m, s.pc[t], t);
  }

  /** An untimed lock by a thread that does not hold the mutex never returns
  without it: on every run from its first step to a state where the thread is
  idle again, it holds the mutex in between. */
  lemma LockHolds(run: seq<State>, t: nat)
    requires Path(Next, run) && Reached(run[0]) && t < |run[0].pc| && Trying(run[0].pc[t])
    requires t < |run[|run| - 1].pc| && run[|run| - 1].pc[t] == Idle
    ensures exists i :: 0 <= i < |run| && t < |run[i].pc| && run[i].pc[t] == Held(1)
  {
    hide Sum, Inv, Advance, CanAdvance;
    ReachedInv(run[0]);
    NextInv();
    var inside := (s: State) => Inv(s) && t < |s.pc| && Trying(s.pc[t]);
    var gate := (s: State) => t < |s.pc| && s.pc[t] == Held(1);
    forall s, s' | Next(s, s') && inside(s) ensures inside(s') || gate(s') {
      if Continue(s, s') {
        var u: nat :| CanAdvance(s, u) && s' == Advance(s, u);
        TryingAdvance(s, t, u);
      }
    }
    LeavesThrough(Next, inside, gate, run);
  }

  /** An idle thread may make any of the calls, the holder every lock that does
  not deadlock, and a timed wait may expire. */
  lemma EveryCallOpen(s: State, t: nat, p: PC)
    requires t < |s.pc|
    requires match s.pc[t]
             case Idle => (p.LFirst? && p.d == 0) || p == TFirst(0) || (p == UReadOwner(0) && s.m.kind != Normal)
             case Held(d) => p == TFirst(d) || (p.LFirst? && p.d == d && s.m.kind != Normal)
             case LBlocked(timed) => timed && p == Idle
             case _ => false
    ensures Begin(s, s.(pc := s.pc[t := p]))
  {
    assert Call(s.m, s.pc[t], p);
  }

  // ---------------------------------------------------------- progress

  function Rank(p: PC): int {
    match p
    case Idle => 0
    case USet => 3
    case UXchg => 4
    case UClear => 5
    case UReadOwner(d) => 6 + 2 * d
    case Held(d) => 7 + 2 * d
    case LSetOwner => 10
    case LSetCount => 11
    case LBlocked(_) => 12
    case LSwap(_) => 13
    case LReadOwner(d, _) => 14 + 2 * d
    case LFirst(d, _) => 15 + 2 * d
    case TReadOwner(d) => 10 + 2 * d
    case TFirst(d) => 12 + 2 * d
  }

  ghost function Measure(s: State): int {
    Sum(s.pc, Rank) + if s.m.event then 2 else 0
  }

  lemma StepLowersRank(m: Fields, p: PC, self: nat)
    requires Ready(m, p) && Local(m, p, self)
    ensures var (m', p') := Step(m, p, self);
            Rank(p') + (if m'.event then 2 else 0) < Rank(p) + (if m.event then 2 else 0)
  {
  }

  lemma ContinueLowersMeasure()
    ensures Preserves(Inv, Continue)
    ensures Lowers(Inv, Continue, Measure)
  {
    hide Sum, Step, Ready, Local;
    forall s, s' | Inv(s) && Continue(s, s') ensures Inv(s') && 0 <= Measure(s') < Measure(s) {
      var t: nat :| CanAdvance(s, t) && s' == Advance(s, t);
      AdvanceInv(s, t);
      StepLowersRank(s.m, s.pc[t], t);
      SumUpdate(s.pc, t, s'.pc[t], Rank);
      SumBounds(s'.pc, Rank);
    }
  }

  ghost predicate AllServed(s: State) {
    s.m.word == 0 && forall t: nat :: t < |s.pc| ==> s.pc[t] == Idle
  }

  lemma StuckIsAllServed(s: State)
    requires Inv(s) && Stuck(Continue, s)
    ensures AllServed(s)
  {
    hide Sum, Step;
    forall t: nat | t < |s.pc| ensures s.pc[t] == Idle || (s.pc[t].LBlocked? && !s.m.event) {
      assert CanAdvance(s, t) ==> Continue(s, Advance(s, t));
    }
    SumZero(s.pc, Holds);
    SumZero(s.pc, Rescuer);
    SumBounds(s.pc, Blocked);
    forall t: nat | t < |s.pc| ensures s.pc[t] == Idle {
      assert Blocked(s.pc[t]) <= Sum(s.pc, Blocked);
    }
  }

  /** No run of lock, unlock and wait steps deadlocks or goes on for ever: if
  every holder unlocks, every caller of lock gets the mutex and leaves. */
  lemma EveryCallerServed(s: State)
    requires Reached(s)
    ensures Settles(Continue, Measure, AllServed, s)
  {
    ReachedInv(s);
    ContinueLowersMeasure();
    SumBounds(s.pc, Rank);
    forall s0 | Inv(s0) && Stuck(Continue, s0) ensures AllServed(s0) { StuckIsAllServed(s0); }
    Settle(Inv, Continue, Measure, AllServed, s);
  }

  // ------------------------------------------- the calls as the source runs them

  datatype Result = Ok | EBUSY | EDEADLK | EPERM | ETIMEDOUT

  /** How a wait for the event ends: with the word the waiter then finds, or at
  its time limit. */
  datatype Wake = Woken(word: int) | Expired

  /** The steps of thread self from p to the end of the call or to a wait, if
  nobody comes in between.  The test of the rank only makes the function total:
  no step of a call that a thread can make fails it. */
  ghost function Alone(m: Fields, p: PC, self: nat): (Fields, PC)
    decreases Rank(p)
  {
    if p.Idle? || p.Held? || p.LBlocked? || Rank(Step(m, p, self).1) >= Rank(p) then (m, p)
    else Alone(Step(m, p, self).0, Step(m, p, self).1, self)
  }

  /** The tail of an unlock that nobody interrupts: the word becomes 0, and the
  event is set if the word was negative. */
  lemma ReleaseAlone(m: Fields, self: nat)
    ensures Alone(m, UXchg, self) == (m.(word := 0, event := m.event || m.word < 0), Idle)
    ensures Alone(m, UClear, self) == (m.(owner := None, word := 0, event := m.event || m.word < 0), Idle)
  {
    assert Alone(m.(word := 0), USet, self) == (m.(word := 0, event := true), Idle);
    assert forall m': Fields :: Alone(m', Idle, self) == (m', Idle);
  }

  /** And its head: the owner's count goes down, and at 0 the mutex is released. */
  lemma UnlockAlone(m: Fields, self: nat)
    requires m.kind != Normal && m.owner == Some(self)
    ensures var m' := if m.kind == Recursive then m.(count := m.count - 1) else m;
            Alone(m, UReadOwner(1), self).0 ==
              if m.kind == Recursive && m'.count != 0 then m'
              else m'.(owner := None, word := 0, event := m.event || m.word < 0)
  {
    var m' := if m.kind == Recursive then m.(count := m.count - 1) else m;
    ReleaseAlone(m', self);
    assert Alone(m', Held(0), self) == (m', Held(0));
  }

  /** The first wait that gets the mutex or runs out of time. */
  ghost predicate EndsAt(waits: nat -> Wake, k: nat) {
    && (waits(k) == Woken(0) || waits(k) == Expired)
    && forall j: nat :: j < k ==> waits(j) != Woken(0) && waits(j) != Expired
  }

  class MutexRecord {
    const kind: Kind
    var lock_idx: int
    var event: bool
    var ownerThread: Option<nat>
    var recursive_count: int

    ghost function Contents(): Fields
      reads this
    {
      Fields(kind, lock_idx, event, ownerThread, recursive_count)
    }

    constructor (kind: Kind)
      ensures this.kind == kind && lock_idx == 0 && !event && ownerThread == None
    {
      this.kind, lock_idx, event, ownerThread, recursive_count := kind, 0, false, None, 0;
    }

    /** The exchange loop of lock and timedlock.  However often it is woken and
    finds the word taken again, it leaves -1 behind, whether it got the mutex or
    gave up, so that the next unlock sets the event.  It succeeds exactly if it
    finds the word 0 before its time is up. */
    method ExchangeLoop(waits: nat -> Wake, ghost bound: nat) returns (result: Result)
      requires waits(bound) == Woken(0) || waits(bound) == Expired
      modifies `lock_idx, `event
      ensures lock_idx == -1 && event == (old(event) && (old(lock_idx) == 0 || waits(0) == Expired))
      ensures old(lock_idx) == 0 ==> result == Ok
      ensures forall k :: old(lock_idx) != 0 && EndsAt(waits, k) ==>
        result == if waits(k) == Woken(0) then Ok else ETIMEDOUT
    {
      var previous, k := lock_idx, 0;
      lock_idx := -1;
      while previous != 0
        invariant lock_idx == -1 && 0 <= k && (k == 0 ==> previous == old(lock_idx))
        invariant k > 0 ==> old(lock_idx) != 0 && waits(k - 1) == Woken(previous)
        invariant forall j: nat :: j < k - 1 ==> waits(j) != Woken(0)
        invariant forall j: nat :: j < k ==> waits(j) != Expired
        invariant previous != 0 ==> k <= bound
        invariant event == (old(event) && k == 0)
        decreases if previous != 0 then bound + 1 - k else 0
      {
        if waits(k) == Expired {
          assert EndsAt(waits, k);
          return ETIMEDOUT;
        }
        event := false;
        previous := waits(k).word;
        lock_idx := -1;
        k := k + 1;
      }
      result := Ok;
    }

    /** pthread_mutex_lock and pthread_mutex_timedlock, while the others do what
    the waits tell. */
    method Lock(self: nat, waits: nat -> Wake, ghost bound: nat) returns (result: Result)
      requires waits(bound) == Woken(0) || waits(bound) == Expired
      modifies this
      ensures kind != Normal && old(lock_idx) != 0 && old(ownerThread) == Some(self) ==>
        && result == (if kind == Recursive then Ok else EDEADLK)
        && Contents() == old(Contents()).(count :=
             if kind == Recursive then old(recursive_count) + 1 else old(recursive_count))
      ensures old(lock_idx) == 0 ==> result == Ok && lock_idx == 1 && event == old(event)
      ensures old(lock_idx) != 0 && (kind == Normal || old(ownerThread) != Some(self)) ==>
        && lock_idx == -1 && event == (old(event) && waits(0) == Expired)
        && forall k :: EndsAt(waits, k) ==> result == if waits(k) == Woken(0) then Ok else ETIMEDOUT
      ensures result == Ok && kind != Normal ==>
        && ownerThread == Some(self)
        && recursive_count ==
             if old(lock_idx) != 0 && old(ownerThread) == Some(self) then old(recursive_count) + 1 else 1
      ensures result != Ok || kind == Normal ==>
        ownerThread == old(ownerThread) && recursive_count == old(recursive_count)
    {
      result := Ok;
      if kind == Normal {
        var previous := lock_idx;
        lock_idx := 1;
        if previous != 0 {
          result := ExchangeLoop(waits, bound);
        }
      } else if lock_idx == 0 {
        lock_idx := 1;
        recursive_count := 1;
        ownerThread := Some(self);
      } else if ownerThread == Some(self) {
        if kind == Recursive {
          recursive_count := recursive_count + 1;
        } else {
          result := EDEADLK;
        }
      } else {
        result := ExchangeLoop(waits, bound);
        if result == Ok {
          recursive_count := 1;
          ownerThread := Some(self);
        }
      }
    }

    method TryLock(self: nat) returns (result: Result)
      modifies this
      ensures Contents() == Alone(old(Contents()), TFirst(0), self).0
      ensures result == if Alone(old(Contents()), TFirst(0), self).1 == Idle then EBUSY else Ok
      ensures old(lock_idx) == 0 ==>
        && result == Ok && lock_idx == 1 && event == old(event)
        && if kind == Normal then ownerThread == old(ownerThread) && recursive_count == old(recursive_count)
           else ownerThread == Some(self) && recursive_count == 1
      ensures old(lock_idx) != 0 ==>
        var again := kind == Recursive && old(ownerThread) == Some(self);
        && result == (if again then Ok else EBUSY)
        && Contents() == old(Contents()).(count := old(recursive_count) + if again then 1 else 0)
    {
      result := Ok;
      if lock_idx == 0 {
        lock_idx := 1;
        if kind != Normal {
          recursive_count := 1;
          ownerThread := Some(self);
        }
      } else if kind == Recursive && ownerThread == Some(self) {
        recursive_count := recursive_count + 1;
      } else {
        result := EBUSY;
      }
    }

    method Unlock(self: nat) returns (result: Result)
      modifies this
      ensures kind == Normal || old(ownerThread) == Some(self) ==>
        result == Ok && Contents() == Alone(old(Contents()), if kind == Normal then UXchg else UReadOwner(1), self).0
      ensures kind != Normal && old(ownerThread) != Some(self) ==> result == EPERM && Contents() == old(Contents())
    {
      hide Alone;
      ReleaseAlone(Contents(), self);
      if kind != Normal && ownerThread == Some(self) { UnlockAlone(Contents(), self); }
      result := Ok;
      if kind == Normal {
        var idx := lock_idx;
        lock_idx := 0;
        if idx < 0 {
          event := true;
        }
      } else if ownerThread == Some(self) {
        if kind == Recursive {
          recursive_count := recursive_count - 1;
        }
        if kind != Recursive || 0 == recursive_count {
          ownerThread := None;
          var idx := lock_idx;
          lock_idx := 0;
          if idx < 0 {
            event := true;
          }
        }
      } else {
        result := EPERM;
      }
    }
  }
}
