/** The counting semaphore of sem_wait.c, sem_timedwait.c, sem_trywait.c,
ptw32_semwait.c, sem_post.c and sem_post_multiple.c: a signed value beside a
kernel semaphore on which threads really block.

A step is one region run under the semaphore's own mutex, or one wait on the
kernel semaphore.  The state also keeps the number of tokens posted and the
number of acquisitions completed. */
module Semaphore {
  import opened Threads

  const SEM_VALUE_MAX: int := 0x7FFF_FFFF

  datatype PC =
    | Idle
    | Wait(abandonable: bool)     // at lock, before --value; abandonable: timed or cancelable
    | Pending(abandonable: bool)  // waiting for the kernel semaphore
    | Expired                     // timed out or cancelled, at lock in the cleanup handler
    | TryWait                     // at lock in sem_trywait
    | Post                        // at lock in sem_post
    | PostMultiple(count: int)    // at entry of sem_post_multiple

  datatype Fields = Fields(
    value: int,      // sem_t_.value
    kernel: int,     // count of the kernel semaphore sem_t_.sem
    initial: int,    // value given to sem_init
    posted: int,     // tokens posted so far
    acquired: int)   // acquisitions completed so far

  datatype State = State(f: Fields, pc: seq<PC>)

  // ------------------------------------------------- the locked regions

  datatype Result = Ok | ERANGE | EINVAL | EAGAIN

  function PostRegion(f: Fields): (Fields, Result) {
    if f.value < SEM_VALUE_MAX then
      (f.(value := f.value + 1, posted := f.posted + 1,
          kernel := if f.value + 1 <= 0 then f.kernel + 1 else f.kernel), Ok)
    else (f, ERANGE)
  }

  function Min(a: int, b: int): int { if a <= b then a else b }

  function PostMultipleRegion(f: Fields, count: int): (Fields, Result) {
    if count <= 0 then (f, EINVAL)
    else if f.value <= SEM_VALUE_MAX - count then
      (f.(value := f.value + count, posted := f.posted + count,
          kernel := if -f.value > 0 then f.kernel + Min(-f.value, count) else f.kernel), Ok)
    else (f, ERANGE)
  }

  function TryWaitRegion(f: Fields): (Fields, Result) {
    if f.value > 0 then (f.(value := f.value - 1, acquired := f.acquired + 1), Ok) else (f, EAGAIN)
  }

  /** The cleanup handler takes a token that was posted late, or withdraws. */
  function CleanupRegion(f: Fields): (Fields, bool) {
    if f.kernel > 0 then (f.(kernel := f.kernel - 1, acquired := f.acquired + 1), true)
    else (f.(value := f.value + 1), false)
  }

  predicate Ready(f: Fields, p: PC) {
    match p
    case Idle => false
    case Pending(_) => f.kernel > 0
    case _ => true
  }

  function Step(f: Fields, p: PC): (Fields, PC) {
    match p
    case Idle => (f, p)
    case Wait(a) =>
      if f.value - 1 < 0 then (f.(value := f.value - 1), Pending(a))
      else (f.(value := f.value - 1, acquired := f.acquired + 1), Idle)
    case Pending(_) => (f.(kernel := f.kernel - 1, acquired := f.acquired + 1), Idle)
    case Expired => (CleanupRegion(f).0, Idle)
    case TryWait => (TryWaitRegion(f).0, Idle)
    case Post => (PostRegion(f).0, Idle)
    case PostMultiple(count) => (PostMultipleRegion(f, count).0, Idle)
  }

  predicate CanAdvance(s: State, t: nat) {
    t < |s.pc| && Ready(s.f, s.pc[t])
  }

  function Advance(s: State, t: nat): State
    requires CanAdvance(s, t)
  {
    var (f, p) := Step(s.f, s.pc[t]);
    State(f, s.pc[t := p])
  }

  predicate Call(p: PC, p': PC) {
    || (p == Idle && p' != Idle && !p'.Pending? && !p'.Expired?)
    || (p == Pending(true) && p' == Expired)
  }

  ghost predicate Continue(s: State, s': State) {
    exists t: nat :: CanAdvance(s, t) && s' == Advance(s, t)
  }

  ghost predicate Begin(s: State, s': State) {
    exists t: nat, p: PC :: t < |s.pc| && Call(s.pc[t], p) && s' == s.(pc := s.pc[t := p])
  }

  ghost predicate Next(s: State, s': State) {
    Continue(s, s') || Begin(s, s')
  }

  ghost predicate Init(s: State) {
    && 0 <= s.f.value <= SEM_VALUE_MAX && s.f == Fields(s.f.value, 0, s.f.value, 0, 0)
    && forall t :: 0 <= t < |s.pc| ==> s.pc[t] == Idle
  }

  // --------------------------------------------------------- invariant

  /** Waiters that have decremented the value and not yet left. */
  function Waiting(p: PC): int { if p.Pending? || p.Expired? then 1 else 0 }

  /** Tokens posted and not acquired: what the semaphore stands for. */
  function Available(f: Fields): int { f.initial + f.posted - f.acquired }

  predicate Conserved(f: Fields, waiting: int) {
    && f.value == Available(f) - waiting
    && f.kernel == waiting - (if f.value < 0 then -f.value else 0)
    && 0 <= f.kernel && f.value <= SEM_VALUE_MAX && 0 <= f.posted && 0 <= f.acquired && 0 <= f.initial
  }

  ghost predicate Inv(s: State) {
    Conserved(s.f, Sum(s.pc, Waiting))
  }

  lemma InitInv(s: State)
    requires Init(s)
    ensures Inv(s)
  {
    forall t: nat | t < |s.pc| ensures s.pc[t] == Idle {}
    SumZero(s.pc, Waiting);
  }

  lemma StepConserves(f: Fields, p: PC, waiting: int)
    requires Conserved(f, waiting) && Ready(f, p) && Waiting(p) <= waiting
    ensures var (f', p') := Step(f, p);
            f'.initial == f.initial && Conserved(f', waiting - Waiting(p) + Waiting(p'))
  {
  }

  lemma AdvanceInv(s: State, t: nat)
    requires Inv(s) && CanAdvance(s, t)
    ensures Inv(Advance(s, t))
  {
    hide Sum, Step;
    SumUpdate(s.pc, t, Step(s.f, s.pc[t]).1, Waiting);
    SumBounds(s.pc, Waiting);
    StepConserves(s.f, s.pc[t], Sum(s.pc, Waiting));
  }

  lemma NextInv()
    ensures Preserves(Inv, Next)
  {
    hide Sum, Step, Ready;
    forall s, s' | Inv(s) && Next(s, s') ensures Inv(s') {
      if Continue(s, s') {
        var t: nat :| CanAdvance(s, t) && s' == Advance(s, t);
        AdvanceInv(s, t);
      } else {
        var t: nat, p: PC :| t < |s.pc| && Call(s.pc[t], p) && s' == s.(pc := s.pc[t := p]);
        SumUpdate(s.pc, t, p, Waiting);
      }
    }
  }

  ghost predicate Reached(s: State) {
    Reachable(Init, Next, s)
  }

  lemma ReachedInv(s: State)
    requires Reached(s)
    ensures Inv(s)
  {
    NextInv();
    forall s0 | Init(s0) ensures Inv(s0) { InitInv(s0); }
    ReachableInvariant(Init, Inv, Next, s);
  }

  // ---------------------------------------------------------- theorems

  /** The value and the kernel count agree with what was posted and acquired. */
  lemma Conservation(s: State)
    requires Reached(s)
    ensures s.f.value == s.f.initial + s.f.posted - s.f.acquired - Sum(s.pc, Waiting)
    ensures s.f.kernel == Sum(s.pc, Waiting) - (if s.f.value < 0 then -s.f.value else 0)
    ensures s.f.acquired <= s.f.initial + s.f.posted
  {
    ReachedInv(s);
    SumBounds(s.pc, Waiting);
  }

  /** Every step acts on Available as on a plain counting semaphore: it adds
  what is posted, takes one off a positive count, or leaves it alone; and a
  wait is given up only when nothing is available. */
  lemma RefinesCounter(s: State, t: nat)
    requires Reached(s) && CanAdvance(s, t)
    ensures var s' := Advance(s, t);
            var before, after := Available(s.f), Available(s'.f);
            && (s'.f.acquired == s.f.acquired + 1 ==> before > 0 && after == before - 1)
            && (s'.f.acquired == s.f.acquired ==> after == before + (s'.f.posted - s.f.posted))
            && s.f.acquired <= s'.f.acquired <= s.f.acquired + 1
            && (s.pc[t].Pending? ==> s'.f.acquired == s.f.acquired + 1)
            && (s.pc[t].Expired? ==> (s'.f.acquired == s.f.acquired <==> before == 0))
  {
    ReachedInv(s);
    SumBounds(s.pc, Waiting);
  }

  /** What each call adds to the tokens posted and takes as an acquisition. */
  lemma StepsMeet(s: State, t: nat)
    requires Reached(s) && CanAdvance(s, t)
    ensures var s' := Advance(s, t);
            var posted, acquired := s'.f.posted - s.f.posted, s'.f.acquired - s.f.acquired;
            match s.pc[t]
            case Wait(a) =>
              && posted == 0 && acquired == (if s.f.value > 0 then 1 else 0)
              && s'.pc[t] == if s.f.value > 0 then Idle else Pending(a)
            case Pending(_) => posted == 0 && acquired == 1 && s'.pc[t] == Idle
            case Expired => posted == 0 && acquired == (if Available(s.f) > 0 then 1 else 0) && s'.pc[t] == Idle
            case TryWait => posted == 0 && acquired == (if s.f.value > 0 then 1 else 0) && s'.pc[t] == Idle
            case Post => posted == (if s.f.value < SEM_VALUE_MAX then 1 else 0) && acquired == 0 && s'.pc[t] == Idle
            case PostMultiple(count) =>
              && posted == (if 0 < count && s.f.value + count <= SEM_VALUE_MAX then count else 0)
              && acquired == 0 && s'.pc[t] == Idle
            case Idle => false
  {
    ReachedInv(s);
    SumBounds(s.pc, Waiting);
  }

  /** An idle thread may make any of the calls, and a timed or cancelable wait
  may end without a token. */
  lemma EveryCallOpen(s: State, t: nat, p: PC)
    requires t < |s.pc|
    requires if p == Expired then s.pc[t] == Pending(true) else s.pc[t] == Idle && p != Idle && !p.Pending?
    ensures Begin(s, s.(pc := s.pc[t := p]))
  {
    assert Call(s.pc[t], p);
  }

  /** The value stays within int and the kernel semaphore never exceeds its
  maximum, so ReleaseSemaphore cannot fail for lack of room. */
  lemma ValueBounds(s: State)
    requires Reached(s) && |s.pc| <= SEM_VALUE_MAX
    ensures -|s.pc| <= s.f.value <= SEM_VALUE_MAX && 0 <= s.f.kernel <= |s.pc| <= SEM_VALUE_MAX
  {
    ReachedInv(s);
    SumAtMost(s.pc, Waiting, 1);
    SumBounds(s.pc, Waiting);
  }

  // -------------------------------------- the bulk post is n single posts

  function PostTimes(f: Fields, n: nat): Fields {
    if n == 0 then f else PostRegion(PostTimes(f, n - 1)).0
  }

  /** sem_post_multiple succeeds exactly when its count is positive and that
  many single posts would all be in range, and then does what they would do. */
  lemma {:induction false} BulkPostIsRepeatedPost(f: Fields, count: int)
    ensures PostMultipleRegion(f, count).1 == Ok <==> count > 0 && f.value + count <= SEM_VALUE_MAX
    ensures PostMultipleRegion(f, count).1 == Ok ==> PostMultipleRegion(f, count).0 == PostTimes(f, count)
    ensures PostMultipleRegion(f, count).1 != Ok ==> PostMultipleRegion(f, count).0 == f
    decreases count
  {
    if count > 1 {
      BulkPostIsRepeatedPost(f, count - 1);
    } else if count == 1 {
      assert PostTimes(f, 0) == f;
    }
  }

  // ---------------------------------------------------------- progress

  function Rank(p: PC): int {
    match p
    case Idle => 0
    case Wait(_) => 2
    case _ => 1
  }

  ghost function Measure(s: State): int {
    Sum(s.pc, Rank)
  }

  lemma ContinueLowersMeasure()
    ensures Preserves(Inv, Continue)
    ensures Lowers(Inv, Continue, Measure)
  {
    hide Sum;
    forall s, s' | Inv(s) && Continue(s, s') ensures Inv(s') && 0 <= Measure(s') < Measure(s) {
      var t: nat :| CanAdvance(s, t) && s' == Advance(s, t);
      AdvanceInv(s, t);
      SumUpdate(s.pc, t, s'.pc[t], Rank);
      SumBounds(s'.pc, Rank);
    }
  }

  /** Nobody is inside except waiters, and they wait only if nothing is available. */
  ghost predicate Quiet(s: State) {
    forall t: nat :: t < |s.pc| ==> s.pc[t] == Idle || (s.pc[t].Pending? && Available(s.f) == 0)
  }

  lemma StuckIsQuiet(s: State)
    requires Inv(s) && Stuck(Continue, s)
    ensures Quiet(s)
  {
    hide Sum, Step;
    SumBounds(s.pc, Waiting);
    forall t: nat | t < |s.pc| ensures s.pc[t] == Idle || (s.pc[t].Pending? && Available(s.f) == 0) {
      assert CanAdvance(s, t) ==> Continue(s, Advance(s, t));
      assert Waiting(s.pc[t]) <= Sum(s.pc, Waiting);
    }
  }

  /** Left alone, every call returns, except waiters for which no token is
  available. */
  lemma NoTokenIsStranded(s: State)
    requires Reached(s)
    ensures Settles(Continue, Measure, Quiet, s)
  {
    ReachedInv(s);
    ContinueLowersMeasure();
    SumBounds(s.pc, Rank);
    forall s0 | Inv(s0) && Stuck(Continue, s0) ensures Quiet(s0) { StuckIsQuiet(s0); }
    Settle(Inv, Continue, Measure, Quiet, s);
  }

  // ------------------------------------- the regions as the source runs them

  /** sem_t_, with the totals that the properties speak of. */
  class SemRecord {
    var value: int
    var kernel: int
    ghost var initial: int
    ghost var posted: int
    ghost var acquired: int

    ghost function Contents(): Fields
      reads this
    {
      Fields(value, kernel, initial, posted, acquired)
    }

    constructor (value: int)
      requires 0 <= value <= SEM_VALUE_MAX
      ensures Contents() == Fields(value, 0, value, 0, 0) && Conserved(Contents(), 0)
    {
      this.value, kernel, initial, posted, acquired := value, 0, value, 0, 0;
    }

    /** The decrement of sem_wait, sem_timedwait and ptw32_semwait. */
    method Decrement(ghost waiting: int) returns (mustWait: bool)
      requires Conserved(Contents(), waiting)
      modifies this
      ensures Contents() == Step(old(Contents()), Wait(false)).0
      ensures mustWait == Step(old(Contents()), Wait(false)).1.Pending?
      ensures Conserved(Contents(), if mustWait then waiting + 1 else waiting)
      ensures mustWait <==> old(value) <= 0
      ensures acquired == old(acquired) + (if mustWait then 0 else 1) && posted == old(posted)
    {
      value := value - 1;
      var v := value;
      mustWait := v < 0;
      if !mustWait {
        acquired := acquired + 1;
      }
    }

    /** The wait on the kernel semaphore comes back. */
    method TakeKernel(ghost waiting: int)
      requires Conserved(Contents(), waiting) && kernel > 0
      modifies this
      ensures Contents() == Step(old(Contents()), Pending(false)).0 && Conserved(Contents(), waiting - 1)
      ensures acquired == old(acquired) + 1 && posted == old(posted)
    {
      kernel := kernel - 1;
      acquired := acquired + 1;
    }

    /** ptw32_sem_timedwait_cleanup. */
    method CleanUp(ghost waiting: int) returns (result: bool)
      requires Conserved(Contents(), waiting) && 0 < waiting
      modifies this
      ensures (Contents(), result) == CleanupRegion(old(Contents())) && Conserved(Contents(), waiting - 1)
      ensures result <==> old(kernel) > 0
      ensures acquired == old(acquired) + (if result then 1 else 0) && posted == old(posted)
    {
      if kernel > 0 {
        kernel := kernel - 1;
        acquired := acquired + 1;
        result := true;
      } else {
        value := value + 1;
        result := false;
      }
    }

    method TryAcquire(ghost waiting: int) returns (result: Result)
      requires Conserved(Contents(), waiting)
      modifies this
      ensures (Contents(), result) == TryWaitRegion(old(Contents())) && Conserved(Contents(), waiting)
      ensures result == if old(value) > 0 then Ok else EAGAIN
      ensures acquired == old(acquired) + (if result == Ok then 1 else 0) && posted == old(posted)
    {
      if value > 0 {
        value := value - 1;
        acquired := acquired + 1;
        result := Ok;
      } else {
        result := EAGAIN;
      }
    }

    method PostOne(ghost waiting: int) returns (result: Result)
      requires Conserved(Contents(), waiting)
      modifies this
      ensures (Contents(), result) == PostRegion(old(Contents())) && Conserved(Contents(), waiting)
      ensures result == if old(value) < SEM_VALUE_MAX then Ok else ERANGE
      ensures posted == old(posted) + (if result == Ok then 1 else 0) && acquired == old(acquired)
    {
      if value < SEM_VALUE_MAX {
        posted := posted + 1;
        value := value + 1;
        if value <= 0 {
          kernel := kernel + 1;
        }
        result := Ok;
      } else {
        result := ERANGE;
      }
    }

    method PostMany(count: int, ghost waiting: int) returns (result: Result)
      requires Conserved(Contents(), waiting)
      modifies this
      ensures (Contents(), result) == PostMultipleRegion(old(Contents()), count) && Conserved(Contents(), waiting)
      ensures result == if count <= 0 then EINVAL else if old(value) + count <= SEM_VALUE_MAX then Ok else ERANGE
      ensures posted == old(posted) + (if result == Ok then count else 0) && acquired == old(acquired)
    {
      if count <= 0 {
        result := EINVAL;
      } else if value <= SEM_VALUE_MAX - count {
        var waiters := -value;
        posted := posted + count;
        value := value + count;
        if waiters > 0 {
          kernel := kernel + if waiters <= count then waiters else count;
        }
        result := Ok;
      } else {
        result := ERANGE;
      }
    }
  }
}
