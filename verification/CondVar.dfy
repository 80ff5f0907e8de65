/** The condition variable: Algorithm 9 of pthread_cond_wait.c and
pthread_cond_signal.c, over any number of threads that wait, time out, are
cancelled, signal and broadcast in any interleaving.

One step is one semaphore operation, one mutex operation, or one region that
runs while a thread holds mtxUnblockLock or the gate token semBlockLock.  The
unlocked increment of nWaitersBlocked is split into its read and its write. */
module CondVar {
  import opened Threads

  const INT_MAX: int := 0x7FFF_FFFF
  const GONE_LIMIT: int := INT_MAX / 2

  /** The three counters of pthread_cond_t_. */
  datatype Counters = Counters(blocked: int, gone: int, toUnblock: int)

  datatype PC =
    | Idle
    // ptw32_cond_timedwait
    | WArrive               // at sem_wait (semBlockLock)
    | WRead                 // holds the gate, before reading nWaitersBlocked
    | WWrite(tmp: int)      // holds the gate, before writing tmp + 1 back
    | WLeave                // at sem_post (semBlockLock)
    | WWait                 // in sem_timedwait (semBlockQueue)
    // ptw32_cond_wait_cleanup
    | WCleanup(took: bool)  // at lock (mtxUnblockLock); took: a queue token was taken
    | WLocked(took: bool)   // owns mtxUnblockLock
    | WCompact              // owns mtxUnblockLock, at semwait (semBlockLock)
    | WFold                 // ... before nWaitersBlocked -= nWaitersGone
    | WFoldPost             // ... at sem_post (semBlockLock)
    | WFoldReset            // ... before nWaitersGone = 0
    | WUnlock(left: int)    // at unlock (mtxUnblockLock), with nSignalsWasLeft
    | WOpen                 // at sem_post (semBlockLock), opening the gate
    // ptw32_cond_unblock
    | SEnter(all: bool)     // at lock (mtxUnblockLock)
    | SLocked(all: bool)    // owns mtxUnblockLock
    | SGate(all: bool)      // owns mtxUnblockLock, at semwait (semBlockLock)
    | SFold(all: bool)      // ... holding the gate
    | SUnlock(n: int)       // at unlock (mtxUnblockLock), n signals to issue
    | SPost(n: int)         // at sem_post_multiple (semBlockQueue, n)

  /** Shared state, three ghost totals, and one program counter per thread. */
  datatype State = State(
    c: Counters,
    gate: nat,              // value of semBlockLock
    queue: nat,             // value of semBlockQueue
    owner: Option<nat>,     // owner of mtxUnblockLock
    issued: int,            // signals added to nWaitersToUnblock so far
    consumed: int,          // cleanups that took one off it so far
    swallowed: nat,         // gate tokens that cancelled waiters took and kept
    pc: seq<PC>)

  // ------------------------------------------------- the locked regions

  datatype Cleanup = Leave(left: int) | Compact

  function CleanupRegion(c: Counters): (Counters, Cleanup) {
    if c.toUnblock != 0 then
      (c.(toUnblock := c.toUnblock - 1), Leave(c.toUnblock))
    else
      (c.(gone := c.gone + 1), if c.gone + 1 == GONE_LIMIT then Compact else Leave(0))
  }

  datatype Unblock = Issue(n: int) | CloseGate

  function UnblockRegion(c: Counters, all: bool): (Counters, Unblock) {
    if c.toUnblock != 0 then
      if c.blocked == 0 then (c, Issue(0))
      else if all then (c.(toUnblock := c.toUnblock + c.blocked, blocked := 0), Issue(c.blocked))
      else (c.(toUnblock := c.toUnblock + 1, blocked := c.blocked - 1), Issue(1))
    else if c.blocked > c.gone then (c, CloseGate)
    else (c, Issue(0))
  }

  function FoldRegion(c: Counters, all: bool): (Counters, int) {
    var b := if c.gone != 0 then c.blocked - c.gone else c.blocked;
    if all then (Counters(0, 0, b), b) else (Counters(b - 1, 0, 1), 1)
  }

  // ------------------------------------------------------------- steps

  predicate CanAdvance(s: State, t: nat)
    requires t < |s.pc|
  {
    match s.pc[t]
    case Idle => false
    case WArrive | WCompact | SGate(_) => s.gate > 0
    case WWait => s.queue > 0
    case WCleanup(_) | SEnter(_) => s.owner.None?
    case _ => true
  }

  function Move(s: State, t: nat, p: PC): State
    requires t < |s.pc|
  {
    s.(pc := s.pc[t := p])
  }

  /** The step thread t takes when it is neither blocked nor idle. */
  function Advance(s: State, t: nat): State
    requires t < |s.pc| && CanAdvance(s, t)
  {
    match s.pc[t]
    case Idle => s
    case WArrive => Move(s, t, WRead).(gate := s.gate - 1)
    case WRead => Move(s, t, WWrite(s.c.blocked))
    case WWrite(tmp) => Move(s, t, WLeave).(c := s.c.(blocked := tmp + 1))
    case WLeave => Move(s, t, WWait).(gate := s.gate + 1)
    case WWait => Move(s, t, WCleanup(true)).(queue := s.queue - 1)
    case WCleanup(took) => Move(s, t, WLocked(took)).(owner := Some(t))
    case WLocked(_) =>
      var (c, r) := CleanupRegion(s.c);
      Move(s, t, match r case Leave(left) => WUnlock(left) case Compact => WCompact)
        .(c := c, consumed := s.consumed + s.c.toUnblock - c.toUnblock)
    case WCompact => Move(s, t, WFold).(gate := s.gate - 1)
    case WFold => Move(s, t, WFoldPost).(c := s.c.(blocked := s.c.blocked - s.c.gone))
    case WFoldPost => Move(s, t, WFoldReset).(gate := s.gate + 1)
    case WFoldReset => Move(s, t, WUnlock(0)).(c := s.c.(gone := 0))
    case WUnlock(left) => Move(s, t, if left == 1 then WOpen else Idle).(owner := None)
    case WOpen => Move(s, t, Idle).(gate := s.gate + 1)
    case SEnter(all) => Move(s, t, SLocked(all)).(owner := Some(t))
    case SLocked(all) =>
      var (c, r) := UnblockRegion(s.c, all);
      Move(s, t, match r case Issue(n) => SUnlock(n) case CloseGate => SGate(all))
        .(c := c, issued := s.issued + c.toUnblock - s.c.toUnblock)
    case SGate(all) => Move(s, t, SFold(all)).(gate := s.gate - 1)
    case SFold(all) =>
      var (c, n) := FoldRegion(s.c, all);
      Move(s, t, SUnlock(n)).(c := c, issued := s.issued + c.toUnblock - s.c.toUnblock)
    case SUnlock(n) => Move(s, t, if n > 0 then SPost(n) else Idle).(owner := None)
    case SPost(n) => Move(s, t, Idle).(queue := if n > 0 then s.queue + n else s.queue)
  }

  /** A waiter is cancelled at the gate.  If the gate is posted meanwhile, the
  cleanup handler of sem_wait takes the token, and the waiter goes all the same. */
  ghost predicate CancelAtGate(s: State, s': State, t: nat)
    requires t < |s.pc|
  {
    s' == Move(s, t, Idle) || (s.gate > 0 && s' == Move(s, t, Idle).(gate := s.gate - 1, swallowed := s.swallowed + 1))
  }

  /** Steps the environment decides on: a call, a cancellation, a timeout. */
  ghost predicate Begin(s: State, s': State, t: nat)
    requires t < |s.pc|
  {
    match s.pc[t]
    case Idle => s' == Move(s, t, WArrive) || s' == Move(s, t, SEnter(false)) || s' == Move(s, t, SEnter(true))
    case WArrive => CancelAtGate(s, s', t)
    case WWait => s' == Move(s, t, WCleanup(false))
    case _ => false
  }

  ghost predicate Continue(s: State, s': State) {
    exists t: nat :: t < |s.pc| && CanAdvance(s, t) && s' == Advance(s, t)
  }

  ghost predicate Next(s: State, s': State) {
    Continue(s, s') || exists t: nat :: t < |s.pc| && Begin(s, s', t)
  }

  ghost predicate Init(s: State) {
    && s.c == Counters(0, 0, 0) && s.gate == 1 && s.queue == 0 && s.owner == None
    && s.issued == 0 && s.consumed == 0 && s.swallowed == 0
    && forall t :: 0 <= t < |s.pc| ==> s.pc[t] == Idle
  }

  // --------------------------------------------------------- invariant

  predicate HoldsMutex(p: PC) {
    p.WLocked? || p.WCompact? || p.WFold? || p.WFoldPost? || p.WFoldReset? || p.WUnlock? ||
    p.SLocked? || p.SGate? || p.SFold? || p.SUnlock?
  }

  /** Waiters that are counted in nWaitersBlocked and not yet cleaned up. */
  function Registered(p: PC): int {
    if p.WLeave? || p.WWait? || p.WCleanup? || p.WLocked? then 1 else 0
  }

  /** Threads that hold the gate token, or are about to put it back. */
  function GateToken(p: PC): int {
    if p.WRead? || p.WWrite? || p.WLeave? || p.WFold? || p.WFoldPost? || p.SFold? || p.WOpen? || p == WUnlock(1)
    then 1 else 0
  }

  /** Queue tokens still to be posted, or taken by a waiter not yet cleaned up. */
  function QueueTokens(p: PC): int {
    match p
    case WCleanup(took) => if took then 1 else 0
    case WLocked(took) => if took then 1 else 0
    case SUnlock(n) => if n > 0 then n else 0
    case SPost(n) => if n > 0 then n else 0
    case _ => 0
  }

  predicate Compacts(p: PC) {
    p.WCompact? || p.WFold? || p.WFoldPost? || p.WFoldReset?
  }

  predicate HasFolded(p: PC) {
    p.WFoldPost? || p.WFoldReset?
  }

  /** The owner of mtxUnblockLock is compacting away nWaitersGone. */
  predicate Compacting(s: State) {
    s.owner.Some? && s.owner.value < |s.pc| && Compacts(s.pc[s.owner.value])
  }

  /** nWaitersGone, less what a compacting thread has already folded away. */
  function GoneNotFolded(s: State): int {
    if s.owner.Some? && s.owner.value < |s.pc| && HasFolded(s.pc[s.owner.value]) then 0 else s.c.gone
  }

  ghost predicate Local(s: State, p: PC) {
    match p
    case WWrite(tmp) => tmp == s.c.blocked
    case SGate(_) => s.c.toUnblock == 0 && s.c.blocked > s.c.gone
    case SFold(_) => s.c.toUnblock == 0 && s.c.blocked > s.c.gone
    case WCompact => s.c.toUnblock == 0
    case WFold => s.c.toUnblock == 0
    case WFoldPost => s.c.toUnblock == 0
    case WFoldReset => s.c.toUnblock == 0
    case SUnlock(n) => n >= 0
    case SPost(n) => n > 0
    case _ => true
  }

  /** mtxUnblockLock is owned by exactly the thread inside a locked region. */
  ghost predicate OwnerInv(s: State) {
    && (s.owner.Some? ==> s.owner.value < |s.pc|)
    && forall t: nat :: t < |s.pc| ==> (HoldsMutex(s.pc[t]) <==> s.owner == Some(t))
  }

  ghost predicate LocalInv(s: State) {
    forall t: nat :: t < |s.pc| ==> Local(s, s.pc[t])
  }

  /** The counting equations of the algorithm. */
  ghost predicate CountInv(s: State) {
    && 0 <= s.c.toUnblock && 0 <= s.c.blocked && 0 <= s.c.gone
    && (s.c.toUnblock > 0 ==> s.c.gone == 0)
    && (if Compacting(s) then s.c.gone == GONE_LIMIT else s.c.gone < GONE_LIMIT)
    && s.issued - s.consumed == s.c.toUnblock
    && s.gate + Sum(s.pc, GateToken) + (if s.c.toUnblock > 0 then 1 else 0) + s.swallowed == 1
    && Sum(s.pc, Registered) == s.c.blocked + s.c.toUnblock - GoneNotFolded(s)
    && s.queue + Sum(s.pc, QueueTokens) >= s.c.toUnblock
  }

  ghost predicate Inv(s: State) {
    OwnerInv(s) && LocalInv(s) && CountInv(s)
  }

  lemma InitInv(s: State)
    requires Init(s)
    ensures Inv(s)
  {
    forall t: nat | t < |s.pc| ensures s.pc[t] == Idle {}
    SumZero(s.pc, GateToken);
    SumZero(s.pc, Registered);
    SumZero(s.pc, QueueTokens);
  }

  lemma SumsAfterMove(s: State, t: nat, p: PC)
    requires t < |s.pc|
    ensures Sum(s.pc[t := p], GateToken) == Sum(s.pc, GateToken) - GateToken(s.pc[t]) + GateToken(p)
    ensures Sum(s.pc[t := p], Registered) == Sum(s.pc, Registered) - Registered(s.pc[t]) + Registered(p)
    ensures Sum(s.pc[t := p], QueueTokens) == Sum(s.pc, QueueTokens) - QueueTokens(s.pc[t]) + QueueTokens(p)
    ensures 0 <= GateToken(s.pc[t]) <= Sum(s.pc, GateToken)
    ensures 0 <= Registered(s.pc[t]) <= Sum(s.pc, Registered)
    ensures 0 <= QueueTokens(s.pc[t]) <= Sum(s.pc, QueueTokens)
    ensures GateToken(s.pc[t]) == Sum(s.pc, GateToken) ==>
              forall j :: 0 <= j < |s.pc| && j != t ==> GateToken(s.pc[j]) == 0
  {
    SumUpdate(s.pc, t, p, GateToken);
    SumUpdate(s.pc, t, p, Registered);
    SumUpdate(s.pc, t, p, QueueTokens);
    SumBounds(s.pc, GateToken);
    SumBounds(s.pc, Registered);
    SumBounds(s.pc, QueueTokens);
    if GateToken(s.pc[t]) == Sum(s.pc, GateToken) {
      SumOnly(s.pc, t, GateToken);
    }
  }

  lemma AdvanceOwner(s: State, t: nat)
    requires OwnerInv(s) && t < |s.pc| && CanAdvance(s, t)
    ensures OwnerInv(Advance(s, t))
  {
  }

  lemma CompactingAfter(s: State, t: nat)
    requires OwnerInv(s) && t < |s.pc| && CanAdvance(s, t)
    ensures var s' := Advance(s, t);
            if HoldsMutex(s.pc[t]) then
              && Compacting(s) == Compacts(s.pc[t]) && GoneNotFolded(s) == (if HasFolded(s.pc[t]) then 0 else s.c.gone)
              && Compacting(s') == Compacts(s'.pc[t])
              && GoneNotFolded(s') == (if HasFolded(s'.pc[t]) then 0 else s'.c.gone)
            else
              Compacting(s') == Compacting(s) && GoneNotFolded(s') == GoneNotFolded(s)
  {
    assert HoldsMutex(s.pc[t]) <==> s.owner == Some(t);
  }

  /** Steps inside a region locked by mtxUnblockLock. */
  lemma OwnerCounts(s: State, t: nat)
    requires Inv(s) && t < |s.pc| && CanAdvance(s, t) && HoldsMutex(s.pc[t])
    ensures CountInv(Advance(s, t))
  {
    hide Sum;
    CompactingAfter(s, t);
    assert Local(s, s.pc[t]);
    hide OwnerInv, LocalInv, HoldsMutex, Compacting, GoneNotFolded;
    SumsAfterMove(s, t, Advance(s, t).pc[t]);
  }

  /** All other steps leave the owner's place alone. */
  lemma OutsiderCounts(s: State, t: nat)
    requires Inv(s) && t < |s.pc| && CanAdvance(s, t) && !HoldsMutex(s.pc[t])
    ensures CountInv(Advance(s, t))
  {
    hide Sum;
    CompactingAfter(s, t);
    assert Local(s, s.pc[t]);
    hide OwnerInv, LocalInv, Compacting, GoneNotFolded;
    SumsAfterMove(s, t, Advance(s, t).pc[t]);
  }

  lemma AdvanceCounts(s: State, t: nat)
    requires Inv(s) && t < |s.pc| && CanAdvance(s, t)
    ensures CountInv(Advance(s, t))
  {
    hide Inv, CountInv, Advance, CanAdvance;
    if HoldsMutex(s.pc[t]) { OwnerCounts(s, t); } else { OutsiderCounts(s, t); }
  }

  lemma AdvanceLocals(s: State, t: nat)
    requires Inv(s) && t < |s.pc| && CanAdvance(s, t)
    ensures LocalInv(Advance(s, t))
  {
    hide Sum;
    var s' := Advance(s, t);
    SumsAfterMove(s, t, s'.pc[t]);
    assert Local(s, s.pc[t]);
    forall j: nat | j < |s.pc| ensures Local(s', s'.pc[j]) {
      if j != t { assert s'.pc[j] == s.pc[j] && Local(s, s.pc[j]); }
    }
  }

  lemma BeginCounts(s: State, s': State, t: nat)
    requires Inv(s) && t < |s.pc| && Begin(s, s', t)
    ensures CountInv(s')
  {
    hide Sum;
    SumsAfterMove(s, t, s'.pc[t]);
  }

  lemma BeginLocals(s: State, s': State, t: nat)
    requires Inv(s) && t < |s.pc| && Begin(s, s', t)
    ensures OwnerInv(s') && LocalInv(s')
  {
    hide Sum;
    forall j: nat | j < |s.pc| ensures Local(s', s'.pc[j]) {
      if j != t { assert s'.pc[j] == s.pc[j] && Local(s, s.pc[j]); }
    }
  }

  lemma NextInv()
    ensures Preserves(Inv, Next)
  {
    hide Inv, Advance, CanAdvance, Begin;
    forall s, s' | Inv(s) && Next(s, s') ensures Inv(s') {
      if Continue(s, s') {
        var t: nat :| t < |s.pc| && CanAdvance(s, t) && s' == Advance(s, t);
        AdvanceInv(s, t);
      } else {
        var t: nat :| t < |s.pc| && Begin(s, s', t);
        BeginInv(s, s', t);
      }
    }
  }

  lemma AdvanceInv(s: State, t: nat)
    requires Inv(s) && t < |s.pc| && CanAdvance(s, t)
    ensures Inv(Advance(s, t))
  {
    AdvanceOwner(s, t);
    AdvanceLocals(s, t);
    AdvanceCounts(s, t);
  }

  lemma BeginInv(s: State, s': State, t: nat)
    requires Inv(s) && t < |s.pc| && Begin(s, s', t)
    ensures Inv(s')
  {
    BeginCounts(s, s', t);
    BeginLocals(s, s', t);
  }

  ghost predicate Reached(s: State) {
    Reachable(Init, Next, s)
  }

  lemma ReachedInv(s: State)
    requires Reached(s)
    ensures Inv(s)
  {
    NextInv();
    forall s0 | Init(s0) ensures Inv(s0) { InitInv(s0); }
    ReachableInvariant(Init, Inv, Next, s);
  }

  // ---------------------------------------------------------- theorems

  /** In every reachable state the counters account for every registered
  waiter, and there are enough queue tokens, posted or in flight, for every
  waiter that has been signalled. */
  lemma NoLostWakeup(s: State)
    requires Reached(s)
    ensures Sum(s.pc, Registered) == s.c.blocked + s.c.toUnblock - GoneNotFolded(s)
    ensures s.c.toUnblock > 0 ==> s.c.gone == 0
    ensures s.queue + Sum(s.pc, QueueTokens) >= s.c.toUnblock
    ensures s.issued == s.consumed + s.c.toUnblock
  {
    ReachedInv(s);
  }

  // ------------------------------------------- no wakeup without a signal

  /** Tokens of semBlockQueue that a signaller has still to post. */
  function ToPost(p: PC): int {
    if (p.SUnlock? || p.SPost?) && p.n > 0 then p.n else 0
  }

  /** A waiter passes semBlockQueue. */
  ghost predicate Passes(s: State, s': State) {
    exists t: nat :: t < |s.pc| && t < |s'.pc| && s.pc[t] == WWait && s'.pc[t] == WCleanup(true)
  }

  /** Tokens of semBlockQueue, posted or about to be, beyond the signals issued. */
  ghost function Surplus(s: State): int { s.queue + Sum(s.pc, ToPost) - s.issued }

  lemma AdvancePasses(s: State, t: nat)
    requires Inv(s) && t < |s.pc| && CanAdvance(s, t)
    ensures var s' := Advance(s, t);
            Surplus(s') + (if s.pc[t].WWait? then 1 else 0) == Surplus(s)
    ensures Passes(s, Advance(s, t)) <==> s.pc[t].WWait?
  {
    hide Sum;
    assert Local(s, s.pc[t]);
    SumUpdate(s.pc, t, Advance(s, t).pc[t], ToPost);
    assert s.pc[t].WWait? ==> s.pc[t] == WWait && Advance(s, t).pc[t] == WCleanup(true);
  }

  lemma BeginPasses(s: State, s': State, t: nat)
    requires t < |s.pc| && Begin(s, s', t)
    ensures Surplus(s') == Surplus(s) && !Passes(s, s')
  {
    hide Sum;
    SumUpdate(s.pc, t, s'.pc[t], ToPost);
  }

  lemma StepPasses(s: State, s': State)
    requires Inv(s) && Next(s, s')
    ensures Surplus(s') + (if Passes(s, s') then 1 else 0) == Surplus(s)
  {
    hide Inv, Sum, Advance, CanAdvance, Begin, Passes, Surplus;
    if Continue(s, s') {
      var t: nat :| t < |s.pc| && CanAdvance(s, t) && s' == Advance(s, t);
      AdvancePasses(s, t);
    } else {
      var t: nat :| t < |s.pc| && Begin(s, s', t);
      BeginPasses(s, s', t);
    }
  }

  /** Every token of semBlockQueue stands for a signal that was issued, and every
  waiter that passes takes one: on no run do more waiters pass than signals
  were issued, and the others are still posted or about to be. */
  lemma PassesAreSignals(run: seq<State>)
    requires Path(Next, run) && Init(run[0])
    ensures var s := run[|run| - 1]; s.queue + Sum(s.pc, ToPost) + Count(Passes, run) == s.issued
    ensures Count(Passes, run) <= run[|run| - 1].issued
  {
    hide Inv, Next, Sum, Passes;
    var deficit := s => -Surplus(s);
    InitInv(run[0]);
    NextInv();
    forall s, s' | Inv(s) && Next(s, s') ensures deficit(s') == deficit(s) + if Passes(s, s') then 1 else 0 {
      StepPasses(s, s');
    }
    CountIsBalance(Inv, Next, Passes, deficit, run);
    SumZero(run[0].pc, ToPost);
    InvariantAlongRun(Inv, Next, run);
    SumBounds(run[|run| - 1].pc, ToPost);
  }

  /** The gate token is in exactly one place, unless a cancelled waiter has kept
  it: then it is nowhere, and that happens at most once. */
  lemma UniqueGateToken(s: State)
    requires Reached(s)
    ensures s.gate + Sum(s.pc, GateToken) + (if s.c.toUnblock > 0 then 1 else 0) == (if s.swallowed == 0 then 1 else 0)
    ensures s.swallowed <= 1
    ensures forall t, u | 0 <= t < u < |s.pc| :: GateToken(s.pc[t]) + GateToken(s.pc[u]) <= 1
    ensures forall t | 0 <= t < |s.pc| && GateToken(s.pc[t]) == 1 :: s.gate == 0 && s.c.toUnblock == 0
  {
    ReachedInv(s);
    SumBounds(s.pc, GateToken);
    forall t, u | 0 <= t < u < |s.pc| ensures GateToken(s.pc[t]) + GateToken(s.pc[u]) <= 1 {
      SumPair(s.pc, t, u, GateToken);
    }
  }

  /** nWaitersBlocked is changed only by the thread that holds the gate token,
  or by a signaller while the token stands for the signalled waiters. */
  lemma BlockedChangedUnderToken(s: State, t: nat)
    requires Reached(s) && t < |s.pc| && CanAdvance(s, t)
    requires Advance(s, t).c.blocked != s.c.blocked
    ensures s.gate == 0
    ensures forall j :: 0 <= j < |s.pc| && j != t ==> GateToken(s.pc[j]) == 0
    ensures if s.c.toUnblock == 0 then GateToken(s.pc[t]) == 1 else s.owner == Some(t) && GateToken(s.pc[t]) == 0
  {
    ReachedInv(s);
    SumBounds(s.pc, GateToken);
    SumOnly(s.pc, t, GateToken);
  }

  /** While signalled waiters remain nobody registers: later arrivals cannot
  take their wakeups. */
  lemma NobodyRegistersWhileSignalled(s: State, s': State)
    requires Reached(s) && Next(s, s') && s.c.toUnblock > 0
    ensures Sum(s'.pc, Registered) <= Sum(s.pc, Registered)
  {
    UniqueGateToken(s);
    hide Sum, Advance, CanAdvance, Begin, Reached;
    if Continue(s, s') {
      var t: nat :| t < |s.pc| && CanAdvance(s, t) && s' == Advance(s, t);
      OnlyTokenHoldersRegister(s, t);
      SumUpdate(s.pc, t, s'.pc[t], Registered);
    } else {
      var t: nat :| t < |s.pc| && Begin(s, s', t);
      NoCallRegisters(s, s', t);
      SumUpdate(s.pc, t, s'.pc[t], Registered);
    }
  }

  lemma NoCallRegisters(s: State, s': State, t: nat)
    requires t < |s.pc| && Begin(s, s', t)
    ensures |s'.pc| == |s.pc| && s'.pc == s.pc[t := s'.pc[t]] && Registered(s'.pc[t]) <= Registered(s.pc[t])
  {
  }

  lemma OnlyTokenHoldersRegister(s: State, t: nat)
    requires t < |s.pc| && CanAdvance(s, t)
    ensures var s' := Advance(s, t);
            && |s'.pc| == |s.pc| && s'.pc == s.pc[t := s'.pc[t]]
            && (Registered(s'.pc[t]) <= Registered(s.pc[t]) || GateToken(s.pc[t]) == 1)
  {
  }

  /** A signal is a no-op exactly when every registered waiter is already
  signalled; otherwise it issues a wakeup at once or goes to close the gate,
  and a broadcast covers every registered waiter. */
  lemma SignalReachesWaiters(s: State, t: nat)
    requires Reached(s) && t < |s.pc| && s.pc[t].SLocked?
    ensures var s' := Advance(s, t);
            var waiters := Sum(s.pc, Registered) - s.c.toUnblock;
            && 0 <= waiters
            && (s'.pc[t] == SUnlock(0) <==> waiters == 0)
            && (waiters > 0 && s'.pc[t].SUnlock? ==>
                  && s'.c.toUnblock == s.c.toUnblock + s'.pc[t].n
                  && s'.pc[t].n == if s.pc[t].all then waiters else 1)
  {
    ReachedInv(s);
    SumBounds(s.pc, Registered);
  }

  /** The comparison before the gate is closed may be stale by the time it is
  closed; even so at least one waiter is left to unblock after the fold. */
  lemma FoldLeavesAWaiter(s: State, t: nat)
    requires Reached(s) && t < |s.pc| && s.pc[t].SFold?
    ensures var s' := Advance(s, t);
            && 1 <= Sum(s.pc, Registered)
            && s'.pc[t] == SUnlock(if s.pc[t].all then Sum(s.pc, Registered) else 1)
            && s'.c.toUnblock == s'.pc[t].n && s'.c.gone == 0
            && s'.c.blocked == Sum(s.pc, Registered) - s'.c.toUnblock
  {
    ReachedInv(s);
    assert Local(s, s.pc[t]);
  }

  /** A broadcast that ran its region, at once or after closing the gate. */
  predicate Broadcast(s: State, t: nat) {
    && t < |s.pc| && CanAdvance(s, t) && (s.pc[t] == SLocked(true) || s.pc[t] == SFold(true))
    && Advance(s, t).pc[t].SUnlock?
  }

  lemma BroadcastCoversAll(s: State, t: nat)
    requires Inv(s) && Broadcast(s, t)
    ensures var s' := Advance(s, t); s'.c.blocked == s'.c.gone && (s'.c.toUnblock > 0 ==> s'.c.blocked == 0)
    ensures Advance(s, t).c.toUnblock > 0 ==> Advance(s, t).c.gone == 0
    ensures Advance(s, t).c.toUnblock == 0 ==> Sum(Advance(s, t).pc, Registered) == 0
  {
    AdvanceInv(s, t);
    hide Sum;
    assert Local(s, s.pc[t]);
    SumBounds(s.pc, Registered);
  }

  /** While signalled waiters remain and no others are blocked, it stays so. */
  lemma NobodyBlocks(s: State, s': State)
    requires Inv(s) && Next(s, s') && s.c.toUnblock > 0 && s.c.blocked == 0
    ensures Inv(s') && s'.c.blocked == 0 && s'.c.gone == 0
  {
    hide Sum;
    NextInv();
    SumBounds(s.pc, GateToken);
    if Continue(s, s') {
      var t: nat :| t < |s.pc| && CanAdvance(s, t) && s' == Advance(s, t);
      assert Local(s, s.pc[t]) && GateToken(s.pc[t]) == 0;
    }
  }

  lemma {:induction false} NobodyBlocksAlongRun(run: seq<State>)
    requires Path(Next, run) && Inv(run[0]) && run[0].c.blocked == 0 && run[0].c.gone == 0
    requires forall i :: 0 <= i < |run| - 1 ==> run[i].c.toUnblock > 0
    ensures var last := run[|run| - 1]; Inv(last) && last.c.blocked == 0 && last.c.gone == 0
  {
    hide Inv, Next;
    if |run| > 1 {
      var front := run[..|run| - 1];
      forall i | 0 <= i < |front| - 1 ensures Next(front[i], front[i + 1]) {
        assert Next(run[i], run[i + 1]);
      }
      NobodyBlocksAlongRun(front);
      assert Next(run[|run| - 2], run[|run| - 1]);
      NobodyBlocks(run[|run| - 2], run[|run| - 1]);
    }
  }

  /** A broadcast reaches everybody: whatever happens after its region has run,
  when nWaitersToUnblock is next 0 no waiter is registered any more, so every one
  that was registered at the broadcast has been cleaned up, and meanwhile nobody
  could register. */
  lemma BroadcastReleasesAll(s: State, t: nat, run: seq<State>)
    requires Reached(s) && Broadcast(s, t) && Path(Next, run) && run[0] == Advance(s, t)
    requires forall i :: 0 <= i < |run| - 1 ==> run[i].c.toUnblock > 0
    requires run[|run| - 1].c.toUnblock == 0
    ensures NoneRegistered(run[|run| - 1])
  {
    hide Sum;
    ReachedInv(s);
    AdvanceInv(s, t);
    BroadcastCoversAll(s, t);
    SumBounds(run[|run| - 1].pc, Registered);
    if |run| > 1 {
      NobodyBlocksAlongRun(run);
    }
  }

  ghost predicate NoneRegistered(s: State) {
    forall u: nat :: u < |s.pc| ==> Registered(s.pc[u]) == 0
  }

  /** For any number of threads gone stays in its range; with at most INT_MAX / 2
  threads no counter leaves the range of int. */
  lemma CounterBounds(s: State)
    requires Reached(s)
    ensures 0 <= s.c.blocked && 0 <= s.c.gone <= GONE_LIMIT && 0 <= s.c.toUnblock
    ensures |s.pc| <= INT_MAX / 2 ==> s.c.blocked <= INT_MAX && s.c.toUnblock <= INT_MAX / 2
    ensures s.owner.None? ==> s.c.gone < GONE_LIMIT
    ensures s.owner.None? && s.c.toUnblock == 0 ==> s.c.gone <= s.c.blocked
  {
    ReachedInv(s);
    SumAtMost(s.pc, Registered, 1);
    SumBounds(s.pc, Registered);
  }

  /** An idle thread may wait, signal and broadcast; a waiter may be cancelled at the
  gate, with the token of an open gate too, and leave the queue at any moment. */
  lemma EveryCallOpen(s: State, t: nat, p: PC, token: bool)
    requires t < |s.pc|
    requires match s.pc[t]
             case Idle => p == WArrive || p.SEnter?
             case WArrive => p == Idle && (token ==> s.gate > 0)
             case WWait => p == WCleanup(false)
             case _ => false
    ensures Next(s, if s.pc[t] == WArrive && token
                    then Move(s, t, p).(gate := s.gate - 1, swallowed := s.swallowed + 1)
                    else Move(s, t, p))
  {
    var s' := if s.pc[t] == WArrive && token then Move(s, t, p).(gate := s.gate - 1, swallowed := s.swallowed + 1)
              else Move(s, t, p);
    assert Begin(s, s', t);
  }

  // ---------------------------------------------------------- progress

  function Rank(p: PC): int {
    match p
    case Idle => 0
    case WArrive => 20
    case WRead => 19
    case WWrite(_) => 18
    case WLeave => 17
    case WWait => 16
    case WCleanup(_) => 15
    case WLocked(_) => 14
    case WCompact => 13
    case WFold => 12
    case WFoldPost => 11
    case WFoldReset => 10
    case WUnlock(_) => 9
    case WOpen => 8
    case SEnter(_) => 7
    case SLocked(_) => 6
    case SGate(_) => 5
    case SFold(_) => 4
    case SUnlock(_) => 3
    case SPost(_) => 2
  }

  ghost function Measure(s: State): int {
    Sum(s.pc, Rank)
  }

  lemma AdvanceLowersRank(s: State, t: nat)
    requires t < |s.pc| && CanAdvance(s, t)
    ensures var s' := Advance(s, t);
            |s'.pc| == |s.pc| && s'.pc == s.pc[t := s'.pc[t]] && Rank(s'.pc[t]) < Rank(s.pc[t])
  {
  }

  lemma ContinueLowersMeasure()
    ensures Preserves(Inv, Continue)
    ensures Lowers(Inv, Continue, Measure)
  {
    hide Sum, Inv, CanAdvance, Advance;
    forall s, s' | Inv(s) && Continue(s, s') ensures Inv(s') && 0 <= Measure(s') < Measure(s) {
      var t: nat :| t < |s.pc| && CanAdvance(s, t) && s' == Advance(s, t);
      AdvanceInv(s, t);
      AdvanceLowersRank(s, t);
      SumUpdate(s.pc, t, s'.pc[t], Rank);
      SumBounds(s'.pc, Rank);
    }
  }

  /** Every signalled waiter has left, the gate is open, nobody owns
  mtxUnblockLock, and whoever is still inside is waiting for a signal. */
  ghost predicate Quiet(s: State) {
    && s.c.toUnblock == 0 && s.issued == s.consumed && s.gate == 1 && s.owner == None
    && forall t: nat :: t < |s.pc| ==> s.pc[t] == Idle || (s.pc[t] == WWait && s.queue == 0)
  }

  lemma StuckThreads(s: State)
    requires Stuck(Continue, s)
    ensures forall t: nat :: t < |s.pc| ==> !CanAdvance(s, t) && GateToken(s.pc[t]) == 0
  {
    hide Advance;
    forall t: nat | t < |s.pc| ensures !CanAdvance(s, t) && GateToken(s.pc[t]) == 0 {
      assert CanAdvance(s, t) ==> Continue(s, Advance(s, t));
    }
  }

  lemma StuckIsQuiet(s: State)
    requires Inv(s) && s.swallowed == 0 && Stuck(Continue, s)
    ensures Quiet(s)
  {
    hide Sum, Advance;
    StuckThreads(s);
    SumZero(s.pc, GateToken);
    forall t: nat | t < |s.pc| ensures !HoldsMutex(s.pc[t]) {
      assert Local(s, s.pc[t]) && !CanAdvance(s, t);
    }
    forall t: nat | t < |s.pc|
      ensures s.pc[t] == Idle || (s.pc[t] == WArrive && s.gate == 0) || (s.pc[t] == WWait && s.queue == 0)
    {
      assert !CanAdvance(s, t);
    }
    SumZero(s.pc, QueueTokens);
    if s.queue > 0 {
      SumZero(s.pc, Registered);
    }
  }

  /** The threads already inside can run, without any further call, timeout or
  cancellation, to a state where every signal has released its waiter and the
  gate is open, and they cannot miss it: if and only if no cancelled waiter has
  kept the gate token. */
  lemma GateReopens(s: State)
    requires Reached(s)
    ensures Settles(Continue, Measure, Quiet, s) <==> s.swallowed == 0
  {
    hide Inv, Continue, CountInv, Sum;
    ReachedInv(s);
    ContinueLowersMeasure();
    var inv := (x: State) => Inv(x) && x.swallowed == s.swallowed;
    forall x, x' | inv(x) && Continue(x, x') ensures inv(x') { ContinueSwallows(x, x'); }
    if s.swallowed == 0 {
      SumBounds(s.pc, Rank);
      forall x | inv(x) && Stuck(Continue, x) ensures Quiet(x) { StuckIsQuiet(x); }
      Settle(inv, Continue, Measure, Quiet, s);
    } else if Settles(Continue, Measure, Quiet, s) {
      var run: seq<State> :| Path(Continue, run) && run[0] == s && Quiet(run[|run| - 1]);
      InvariantAlongRun(inv, Continue, run);
      NoTokenLeft(run[|run| - 1]);
    }
  }

  lemma ContinueSwallows(s: State, s': State)
    requires Continue(s, s')
    ensures s'.swallowed == s.swallowed
  {
  }

  lemma NoTokenLeft(s: State)
    requires Inv(s) && s.swallowed > 0
    ensures s.gate == 0 && s.c.toUnblock == 0 && s.swallowed == 1
    ensures forall t: nat :: t < |s.pc| ==> GateToken(s.pc[t]) == 0
  {
    SumBounds(s.pc, GateToken);
  }

  // ------------------------------------------- once the token is swallowed

  /** Nobody has the token or will put it back, and no signal is outstanding. */
  ghost predicate Swallowed(s: State) {
    Inv(s) && s.swallowed == 1
  }

  /** What the two states share if all signals are lost: a signaller at the gate
  stays there, owning mtxUnblockLock. */
  ghost predicate SameSignals(s: State, s': State) {
    && |s'.pc| == |s.pc| && s'.issued == s.issued
    && (forall t: nat :: t < |s.pc| && s.pc[t].SGate? ==> s'.pc[t] == s.pc[t])
    && (forall t: nat :: t < |s.pc| && Registered(s.pc[t]) == 0 ==> Registered(s'.pc[t]) == 0)
  }

  lemma SwallowedStep(s: State, s': State)
    requires Swallowed(s) && Next(s, s')
    ensures Swallowed(s') && SameSignals(s, s')
  {
    hide Inv, Advance, CanAdvance, Begin, SameSignals, Quiet;
    NextInv();
    NoTokenLeft(s);
    if Continue(s, s') {
      var t: nat :| t < |s.pc| && CanAdvance(s, t) && s' == Advance(s, t);
      LostAdvance(s, t);
    } else {
      var t: nat :| t < |s.pc| && Begin(s, s', t);
      LostBegin(s, s', t);
    }
  }

  lemma LostAdvance(s: State, t: nat)
    requires t < |s.pc| && CanAdvance(s, t) && s.gate == 0 && s.c.toUnblock == 0 && GateToken(s.pc[t]) == 0
    ensures SameSignals(s, Advance(s, t)) && Advance(s, t).swallowed == s.swallowed
  {
  }

  lemma LostBegin(s: State, s': State, t: nat)
    requires t < |s.pc| && Begin(s, s', t) && s.gate == 0
    ensures SameSignals(s, s') && s'.swallowed == s.swallowed
  {
  }

  /** Once a cancelled waiter has kept the token the condition variable is dead:
  on every run the gate stays closed, nobody registers, no signal is ever issued
  again, and a signaller at the gate keeps mtxUnblockLock for ever. */
  lemma SwallowedForever(s: State, run: seq<State>)
    requires Reached(s) && s.swallowed > 0 && Path(Next, run) && run[0] == s
    ensures var last := run[|run| - 1]; last.gate == 0 && last.c.toUnblock == 0 && SameSignals(s, last)
    ensures forall t: nat :: t < |s.pc| && s.pc[t].SGate? ==> run[|run| - 1].owner == Some(t)
  {
    hide Inv, Next, SameSignals;
    ReachedInv(s);
    NoTokenLeft(s);
    var inv := (x: State) => Swallowed(x) && SameSignals(s, x);
    forall x, x' | inv(x) && Next(x, x') ensures inv(x') {
      SwallowedStep(x, x');
      SameTransitive(s, x, x');
    }
    SameReflexive(s);
    InvariantAlongRun(inv, Next, run);
    NoTokenLeft(run[|run| - 1]);
    GateOwner(s, run[|run| - 1]);
  }

  lemma SameReflexive(s: State)
    ensures SameSignals(s, s)
  {
  }

  lemma SameTransitive(s: State, x: State, x': State)
    requires SameSignals(s, x) && SameSignals(x, x')
    ensures SameSignals(s, x')
  {
  }

  lemma GateOwner(s: State, last: State)
    requires SameSignals(s, last) && Inv(last)
    ensures forall t: nat :: t < |s.pc| && s.pc[t].SGate? ==> last.owner == Some(t)
  {
  }

  predicate NeverSignals(s: State) {
    s.issued == 0 && |s.pc| == 4 && s.pc[3] == SGate(false)
  }

  /** How four threads get there.  Thread 0 registers while 1 and 2 wait at the
  gate; 1 is cancelled just as 0 opens it; the signal of 3 then never gets
  through, whatever happens next. */
  lemma SwallowedExample() returns (s: State)
    ensures Reached(s) && s.swallowed == 1 && s.pc == [WWait, Idle, WArrive, SGate(false)]
    ensures forall run: seq<State> :: Path(Next, run) && run[0] == s ==> NeverSignals(run[|run| - 1])
  {
    hide Inv, Next, Reached;
    s := SignalAtGate();
    forall run: seq<State> | Path(Next, run) && run[0] == s ensures NeverSignals(run[|run| - 1]) {
      SwallowedForever(s, run);
    }
  }

  /** Four threads; nothing has been posted to the queue. */
  function Four(c: Counters, gate: nat, owner: Option<nat>, swallowed: nat, t0: PC, t1: PC, t2: PC, t3: PC): State {
    State(c, gate, 0, owner, 0, 0, swallowed, [t0, t1, t2, t3])
  }

  lemma FourMove(t0: PC, t1: PC, t2: PC, t3: PC, p: PC)
    ensures [t0, t1, t2, t3][0 := p] == [p, t1, t2, t3] && [t0, t1, t2, t3][1 := p] == [t0, p, t2, t3]
    ensures [t0, t1, t2, t3][2 := p] == [t0, t1, p, t3] && [t0, t1, t2, t3][3 := p] == [t0, t1, t2, p]
  {
  }

  lemma FirstArrives() returns (s: State)
    ensures Reached(s) && s == Four(Counters(0, 0, 0), 1, None, 0, WArrive, Idle, Idle, Idle)
  {
    hide Reached;
    var s0 := Four(Counters(0, 0, 0), 1, None, 0, Idle, Idle, Idle, Idle);
    s := Four(Counters(0, 0, 0), 1, None, 0, WArrive, Idle, Idle, Idle);
    ReachedStart(s0);
    FourMove(Idle, Idle, Idle, Idle, WArrive);
    ReachedBegin(s0, s, 0);
  }

  lemma FirstRegisters() returns (s: State)
    ensures Reached(s) && s == Four(Counters(1, 0, 0), 0, None, 0, WLeave, Idle, Idle, Idle)
  {
    hide Reached;
    var s1 := FirstArrives();
    var s2 := Four(Counters(0, 0, 0), 0, None, 0, WRead, Idle, Idle, Idle);
    var s3 := Four(Counters(0, 0, 0), 0, None, 0, WWrite(0), Idle, Idle, Idle);
    s := Four(Counters(1, 0, 0), 0, None, 0, WLeave, Idle, Idle, Idle);
    FourMove(WArrive, Idle, Idle, Idle, WRead);
    ReachedStep(s1, s2, 0);
    FourMove(WRead, Idle, Idle, Idle, WWrite(0));
    ReachedStep(s2, s3, 0);
    FourMove(WWrite(0), Idle, Idle, Idle, WLeave);
    ReachedStep(s3, s, 0);
  }

  /** Thread 0 opens the gate while two others are waiting for it. */
  lemma GateCrowd() returns (s: State)
    ensures Reached(s) && s == Four(Counters(1, 0, 0), 1, None, 0, WWait, WArrive, WArrive, Idle)
  {
    hide Reached;
    var s4 := FirstRegisters();
    var s5 := Four(Counters(1, 0, 0), 0, None, 0, WLeave, WArrive, Idle, Idle);
    var s6 := Four(Counters(1, 0, 0), 0, None, 0, WLeave, WArrive, WArrive, Idle);
    s := Four(Counters(1, 0, 0), 1, None, 0, WWait, WArrive, WArrive, Idle);
    FourMove(WLeave, Idle, Idle, Idle, WArrive);
    ReachedBegin(s4, s5, 1);
    FourMove(WLeave, WArrive, Idle, Idle, WArrive);
    ReachedBegin(s5, s6, 2);
    FourMove(WLeave, WArrive, WArrive, Idle, WWait);
    ReachedStep(s6, s, 0);
  }

  lemma TokenKept() returns (s: State)
    ensures Reached(s) && s == Four(Counters(1, 0, 0), 0, None, 1, WWait, Idle, WArrive, SEnter(false))
  {
    hide Reached;
    var s7 := GateCrowd();
    var s8 := Four(Counters(1, 0, 0), 0, None, 1, WWait, Idle, WArrive, Idle);
    s := Four(Counters(1, 0, 0), 0, None, 1, WWait, Idle, WArrive, SEnter(false));
    FourMove(WWait, WArrive, WArrive, Idle, Idle);
    ReachedBegin(s7, s8, 1);
    FourMove(WWait, Idle, WArrive, Idle, SEnter(false));
    ReachedBegin(s8, s, 3);
  }

  lemma SignalAtGate() returns (s: State)
    ensures Reached(s) && s == Four(Counters(1, 0, 0), 0, Some(3), 1, WWait, Idle, WArrive, SGate(false))
  {
    hide Reached;
    var s9 := TokenKept();
    var s10 := Four(Counters(1, 0, 0), 0, Some(3), 1, WWait, Idle, WArrive, SLocked(false));
    s := Four(Counters(1, 0, 0), 0, Some(3), 1, WWait, Idle, WArrive, SGate(false));
    FourMove(WWait, Idle, WArrive, SEnter(false), SLocked(false));
    ReachedStep(s9, s10, 3);
    FourMove(WWait, Idle, WArrive, SLocked(false), SGate(false));
    ReachedStep(s10, s, 3);
  }

  lemma ReachedStart(s: State)
    requires Init(s)
    ensures Reached(s)
  {
    assert Path(Next, [s]);
  }

  lemma ReachedStep(s: State, s': State, t: nat)
    requires Reached(s) && t < |s.pc| && CanAdvance(s, t) && s' == Advance(s, t)
    ensures Reached(s')
  {
    assert Continue(s, s');
    OneMore(Init, Next, s, s');
  }

  lemma ReachedBegin(s: State, s': State, t: nat)
    requires Reached(s) && t < |s.pc| && Begin(s, s', t)
    ensures Reached(s')
  {
    OneMore(Init, Next, s, s');
  }

  // ------------------------------------- the regions as the source runs them

  /** Waiters that have registered and not been cleaned up. */
  function Balance(c: Counters): int { c.blocked + c.toUnblock - c.gone }

  /** What the thread that compacts can read off the counters. */
  lemma CompactingState(s: State, t: nat)
    ensures Reached(s) && t < |s.pc| && s.pc[t] == WFold ==>
      && s.c.toUnblock == 0 && Sum(s.pc, Registered) == s.c.blocked - s.c.gone
      && Advance(s, t).c == s.c.(blocked := s.c.blocked - s.c.gone)
    ensures Reached(s) && t < |s.pc| && s.pc[t] == WFoldReset ==>
      && s.c.toUnblock == 0 && Sum(s.pc, Registered) == s.c.blocked && Advance(s, t).c == s.c.(gone := 0)
  {
    hide Sum;
    if Reached(s) && t < |s.pc| {
      ReachedInv(s);
      assert Local(s, s.pc[t]);
    }
  }

  class CondRecord {
    var nWaitersBlocked: int
    var nWaitersGone: int
    var nWaitersToUnblock: int

    ghost function Contents(): Counters
      reads this
    {
      Counters(nWaitersBlocked, nWaitersGone, nWaitersToUnblock)
    }

    constructor ()
      ensures Contents() == Counters(0, 0, 0)
    {
      nWaitersBlocked, nWaitersGone, nWaitersToUnblock := 0, 0, 0;
    }

    /** ptw32_cond_wait_cleanup under mtxUnblockLock: one waiter fewer.  It uses up
    a signal if there is one, and otherwise only counts itself as gone. */
    method CleanUp() returns (nSignalsWasLeft: int, compact: bool)
      modifies this
      ensures CleanupRegion(old(Contents())) == (Contents(), if compact then Compact else Leave(nSignalsWasLeft))
      ensures Balance(Contents()) == Balance(old(Contents())) - 1 && nWaitersBlocked == old(nWaitersBlocked)
      ensures old(nWaitersToUnblock) != 0 <==> nWaitersGone == old(nWaitersGone)
    {
      compact := false;
      nSignalsWasLeft := nWaitersToUnblock;
      if 0 != nSignalsWasLeft {
        nWaitersToUnblock := nWaitersToUnblock - 1;
      } else {
        nWaitersGone := nWaitersGone + 1;
        compact := GONE_LIMIT == nWaitersGone;
      }
    }

    /** Compaction, with the gate token in hand: of the blocked waiters only those
    still registered are left.  Thread t takes this step in state s. */
    method CompactBlocked(ghost s: State, ghost t: nat)
      modifies this
      ensures nWaitersBlocked + nWaitersToUnblock == Balance(old(Contents()))
      ensures nWaitersGone == old(nWaitersGone) && nWaitersToUnblock == old(nWaitersToUnblock)
      ensures Reached(s) && t < |s.pc| && s.pc[t] == WFold && s.c == old(Contents()) ==>
        Contents() == Advance(s, t).c && nWaitersBlocked == Sum(s.pc, Registered)
    {
      hide Sum, Reached, Advance;
      CompactingState(s, t);
      nWaitersBlocked := nWaitersBlocked - nWaitersGone;
    }

    /** The end of the compaction: the counters balance again, and what they
    balance to is still the number of registered waiters. */
    method CompactGone(ghost s: State, ghost t: nat)
      modifies this
      ensures Balance(Contents()) == old(nWaitersBlocked + nWaitersToUnblock)
      ensures nWaitersBlocked == old(nWaitersBlocked) && nWaitersToUnblock == old(nWaitersToUnblock)
      ensures Reached(s) && t < |s.pc| && s.pc[t] == WFoldReset && s.c == old(Contents()) ==>
        Contents() == Advance(s, t).c && Balance(Contents()) == Sum(s.pc, Registered)
    {
      hide Sum, Reached, Advance;
      CompactingState(s, t);
      nWaitersGone := 0;
    }

    /** ptw32_cond_unblock under mtxUnblockLock: nobody is registered or forgotten,
    and n waiters are moved from blocked to be unblocked. */
    method Unblock(unblockAll: bool) returns (nSignalsToIssue: int, closeGate: bool)
      modifies this
      ensures UnblockRegion(old(Contents()), unblockAll)
           == (Contents(), if closeGate then CloseGate else Issue(nSignalsToIssue))
      ensures Balance(Contents()) == Balance(old(Contents())) && nWaitersGone == old(nWaitersGone)
      ensures nWaitersToUnblock == old(nWaitersToUnblock) + nSignalsToIssue
    {
      nSignalsToIssue, closeGate := 0, false;
      if 0 != nWaitersToUnblock {
        if 0 == nWaitersBlocked {
          return;
        }
        if unblockAll {
          nSignalsToIssue := nWaitersBlocked;
          nWaitersToUnblock := nWaitersToUnblock + nSignalsToIssue;
          nWaitersBlocked := 0;
        } else {
          nSignalsToIssue := 1;
          nWaitersToUnblock := nWaitersToUnblock + 1;
          nWaitersBlocked := nWaitersBlocked - 1;
        }
      } else if nWaitersBlocked > nWaitersGone {
        closeGate := true;
      }
    }

    /** The same once the gate is closed: waiters that are gone are folded first. */
    method Fold(unblockAll: bool) returns (nSignalsToIssue: int)
      modifies this
      ensures FoldRegion(old(Contents()), unblockAll) == (Contents(), nSignalsToIssue) && nWaitersGone == 0
      ensures old(nWaitersToUnblock) == 0 ==> Balance(Contents()) == Balance(old(Contents()))
      ensures nWaitersToUnblock == nSignalsToIssue && (unblockAll ==> nWaitersBlocked == 0)
    {
      if 0 != nWaitersGone {
        nWaitersBlocked := nWaitersBlocked - nWaitersGone;
        nWaitersGone := 0;
      }
      if unblockAll {
        nWaitersToUnblock := nWaitersBlocked;
        nSignalsToIssue := nWaitersToUnblock;
        nWaitersBlocked := 0;
      } else {
        nWaitersToUnblock := 1;
        nSignalsToIssue := nWaitersToUnblock;
        nWaitersBlocked := nWaitersBlocked - 1;
      }
    }
  }
}
