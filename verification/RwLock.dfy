/** The read/write lock of the pthread_rwlock_*.c files, over any number of
threads and any mix of lock, timed lock, try lock, cancellation and unlock.

The two mutexes are plain owned locks and the condition variable releases
mtxSharedAccessCompleted and waits in one step, as modules Mutex and CondVar
justify.  A step is one operation on a mutex or on the condition variable, or
one region run while holding the mutexes the source holds there. */
module RwLock {
  import opened Threads

  const INT_MAX: int := 0x7FFF_FFFF

  datatype PC =
    | Idle
    // pthread_rwlock_rdlock, pthread_rwlock_tryrdlock
    | RLockE(try: bool)    // at lock or trylock (mtxExclusiveAccess)
    | RCount               // before ++nSharedAccessCount
    | RLockS               // the count reached INT_MAX; at lock (mtxSharedAccessCompleted)
    | RFold
    | RUnlockS
    | RUnlockE
    | Reading
    // pthread_rwlock_wrlock, pthread_rwlock_timedwrlock
    | WLockE(timed: bool)
    | WLockS(timed: bool)
    | WGiveUpE             // timed out on the second mutex; at unlock (mtxExclusiveAccess)
    | WCheck               // holds both mutexes
    | WWaiting             // in pthread_cond_wait
    | WWoken(ok: bool)     // woken, or timed out or cancelled; relocking mtxSharedAccessCompleted
    | WTest(ok: bool)      // back from pthread_cond_wait with both mutexes
    | WUndo                // ptw32_rwlock_cancelwrwait
    | WUndoUnlockS
    | WUndoUnlockE
    | Writing
    // pthread_rwlock_trywrlock
    | XLockE
    | XLockS
    | XCheck
    | XUnlockS
    | XUnlockE
    | XLeak                // the final branch: EBUSY with both mutexes still held
    // pthread_rwlock_unlock; writer tells who is calling
    | UTest(writer: bool)  // the unlocked read of nExclusiveAccessCount
    | UCountLock           // read 0; at lock (mtxSharedAccessCompleted)
    | UCount
    | USignal
    | UUnlockS
    | UDec                 // read nonzero
    | UDecUnlockS
    | UDecUnlockE

  datatype Fields = Fields(
    shared: int,           // nSharedAccessCount
    excl: int,             // nExclusiveAccessCount
    completed: int,        // nCompletedSharedAccessCount
    mE: Option<nat>,       // owner of mtxExclusiveAccess
    mS: Option<nat>,       // owner of mtxSharedAccessCompleted
    woken: bool)           // cndSharedAccessCompleted was signalled since the last wait began

  datatype State = State(f: Fields, pc: seq<PC>)

  /** Folding the completed count into the shared one. */
  function Fold(f: Fields): Fields {
    if f.completed > 0 then f.(shared := f.shared - f.completed, completed := 0) else f
  }

  function CheckRegion(f: Fields): (Fields, PC) {
    if f.excl != 0 then (f.(excl := f.excl + 1), Writing)
    else
      var g := Fold(f);
      if g.shared > 0 then (g.(completed := -g.shared, mS := None, woken := false), WWaiting)
      else (g.(excl := g.excl + 1), Writing)
  }

  function TestRegion(f: Fields, ok: bool): (Fields, PC) {
    if !ok then (f, WUndo)
    else if f.completed < 0 then (f.(mS := None, woken := false), WWaiting)
    else (f.(shared := 0, excl := f.excl + 1), Writing)
  }

  function TryCheckRegion(f: Fields): (Fields, PC) {
    if f.excl != 0 then (f, XLeak)
    else
      var g := Fold(f);
      if g.shared > 0 then (g, XUnlockS) else (g.(excl := 1), Writing)
  }

  predicate Ready(f: Fields, p: PC) {
    match p
    case Idle => false
    case XLeak => false
    case RLockE(try) => try || f.mE.None?
    case WLockE(_) => f.mE.None?
    case RLockS | WLockS(_) | WWoken(_) | UCountLock => f.mS.None?
    case WWaiting => f.woken
    case _ => true
  }

  function Step(f: Fields, p: PC, self: nat): (Fields, PC) {
    match p
    case Idle => (f, p)
    case RLockE(_) => if f.mE.None? then (f.(mE := Some(self)), RCount) else (f, Idle)
    case RCount => (f.(shared := f.shared + 1), if f.shared + 1 == INT_MAX then RLockS else RUnlockE)
    case RLockS => (f.(mS := Some(self)), RFold)
    case RFold => (f.(shared := f.shared - f.completed, completed := 0), RUnlockS)
    case RUnlockS => (f.(mS := None), RUnlockE)
    case RUnlockE => (f.(mE := None), Reading)
    case Reading => (f, UTest(false))
    case WLockE(timed) => (f.(mE := Some(self)), WLockS(timed))
    case WLockS(_) => (f.(mS := Some(self)), WCheck)
    case WGiveUpE => (f.(mE := None), Idle)
    case WCheck => CheckRegion(f)
    case WWaiting => (f.(woken := false), WWoken(true))
    case WWoken(ok) => (f.(mS := Some(self)), WTest(ok))
    case WTest(ok) => TestRegion(f, ok)
    case WUndo => (f.(shared := -f.completed, completed := 0), WUndoUnlockS)
    case WUndoUnlockS => (f.(mS := None), WUndoUnlockE)
    case WUndoUnlockE => (f.(mE := None), Idle)
    case Writing => (f, UTest(true))
    case XLockE => if f.mE.None? then (f.(mE := Some(self)), XLockS) else (f, Idle)
    case XLockS => if f.mS.None? then (f.(mS := Some(self)), XCheck) else (f, XUnlockE)
    case XCheck => TryCheckRegion(f)
    case XUnlockS => (f.(mS := None), XUnlockE)
    case XUnlockE => (f.(mE := None), Idle)
    case XLeak => (f, p)
    case UTest(_) => (f, if f.excl == 0 then UCountLock else UDec)
    case UCountLock => (f.(mS := Some(self)), UCount)
    case UCount => (f.(completed := f.completed + 1), if f.completed + 1 == 0 then USignal else UUnlockS)
    case USignal => (f.(woken := true), UUnlockS)
    case UUnlockS => (f.(mS := None), Idle)
    case UDec => (f.(excl := f.excl - 1), UDecUnlockS)
    case UDecUnlockS => (f.(mS := None), UDecUnlockE)
    case UDecUnlockE => (f.(mE := None), Idle)
  }

  predicate CanAdvance(s: State, t: nat) {
    t < |s.pc| && Ready(s.f, s.pc[t])
  }

  function Advance(s: State, t: nat): State
    requires CanAdvance(s, t)
  {
    var (f, p) := Step(s.f, s.pc[t], t);
    State(f, s.pc[t := p])
  }

  /** Calls, timeouts, cancellations and spurious wakeups. */
  predicate Call(p: PC, p': PC) {
    match p
    case Idle => p'.RLockE? || p'.WLockE? || p' == XLockE
    case WLockE(timed) => timed && p' == Idle
    case WLockS(timed) => timed && p' == WGiveUpE
    case WWaiting => p'.WWoken?
    case _ => false
  }

  ghost predicate Continue(s: State, s': State) {
    exists t: nat :: CanAdvance(s, t) && s' == Advance(s, t)
  }

  ghost predicate Begin(s: State, s': State) {
    exists t: nat, p: PC :: t < |s.pc| && Call(s.pc[t], p) && s' == s.(pc := s.pc[t := p])
  }

  ghost predicate Next(s: State, s': State) {
    Continue(s, s') || Begin(s, s')
  }

  ghost predicate Init(s: State) {
    && s.f.shared == 0 && s.f.excl == 0 && s.f.completed == 0 && s.f.mE == None && s.f.mS == None
    && forall t :: 0 <= t < |s.pc| ==> s.pc[t] == Idle
  }

  // --------------------------------------------------------- invariant

  predicate HoldsE(p: PC) {
    p.RCount? || p.RLockS? || p.RFold? || p.RUnlockS? || p.RUnlockE? || p.WLockS? || p.WGiveUpE? || p.WCheck? ||
    p.WWaiting? || p.WWoken? || p.WTest? || p.WUndo? || p.WUndoUnlockS? || p.WUndoUnlockE? || p.Writing? ||
    p.XLockS? || p.XCheck? || p.XUnlockS? || p.XUnlockE? || p == UTest(true) || p.UDec? || p.UDecUnlockS? ||
    p.UDecUnlockE?
  }

  predicate HoldsS(p: PC) {
    p.RFold? || p.RUnlockS? || p.WCheck? || p.WTest? || p.WUndo? || p.WUndoUnlockS? || p.Writing? || p.XCheck? ||
    p.XUnlockS? || p == UTest(true) || p.UDec? || p.UDecUnlockS? || p.UCount? || p.USignal? || p.UUnlockS?
  }

  /** Read locks counted in nSharedAccessCount and not yet counted as completed. */
  function Reader(p: PC): int {
    if p.RLockS? || p.RFold? || p.RUnlockS? || p.RUnlockE? || p.Reading? || p == UTest(false) || p.UCountLock? ||
       p.UCount?
    then 1 else 0
  }

  function Writer(p: PC): int { if p.Writing? || p == UTest(true) || p.UDec? then 1 else 0 }

  /** A writer waiting for the readers to drain. */
  function Drainer(p: PC): int { if p.WWaiting? || p.WWoken? || p.WTest? || p.WUndo? then 1 else 0 }

  function Sleeper(p: PC): int { if p.WWaiting? then 1 else 0 }

  function Signaller(p: PC): int { if p.USignal? then 1 else 0 }

  function Folder(p: PC): int { if p.RLockS? || p.RFold? then 1 else 0 }

  /** The counters against the number of readers, writers and draining writers. */
  predicate Balanced(f: Fields, readers: int, writers: int, drainers: int) {
    && f.excl == writers && 0 <= writers && 0 <= drainers && 0 <= readers && writers + drainers <= 1
    && (if drainers == 1 then f.completed <= 0 && readers == -f.completed
        else 0 <= f.completed && readers == f.shared - f.completed)
    && (writers == 1 ==> f.shared == 0 && f.completed == 0)
    && 0 <= f.shared
  }

  /** The shared count reaches INT_MAX only while its holder is about to fold. */
  predicate Bounded(f: Fields, folders: int) {
    f.shared < INT_MAX || (f.shared == INT_MAX && folders > 0)
  }

  /** A sleeping writer with nobody left to wait for has been or will be woken. */
  predicate WakeupComing(f: Fields, sleepers: int, signallers: int) {
    && (sleepers > 0 && f.completed == 0 ==> f.woken || signallers > 0)
    && (sleepers > 0 && f.woken ==> f.completed == 0)
  }

  /** What holds of the fields when thread t is at p. */
  predicate Local(f: Fields, p: PC, t: nat) {
    && (HoldsE(p) <==> f.mE == Some(t))
    && (HoldsS(p) <==> f.mS == Some(t))
    && !p.XLeak?
    && (p.USignal? ==> f.completed == 0)
  }

  ghost predicate CountInv(f: Fields, pc: seq<PC>) {
    && Balanced(f, Sum(pc, Reader), Sum(pc, Writer), Sum(pc, Drainer))
    && WakeupComing(f, Sum(pc, Sleeper), Sum(pc, Signaller))
  }

  ghost predicate Inv(s: State) {
    && CountInv(s.f, s.pc)
    && (s.f.mE.Some? ==> s.f.mE.value < |s.pc|) && (s.f.mS.Some? ==> s.f.mS.value < |s.pc|)
    && forall t: nat :: t < |s.pc| ==> Local(s.f, s.pc[t], t)
  }

  lemma InitInv(s: State)
    requires Init(s)
    ensures Inv(s)
  {
    hide Sum, Local;
    forall t: nat | t < |s.pc| ensures Local(s.f, s.pc[t], t) {
      IdleIsLocal(s.f, t);
    }
    SumZero(s.pc, Reader);
    SumZero(s.pc, Writer);
    SumZero(s.pc, Drainer);
    SumZero(s.pc, Sleeper);
  }

  lemma IdleIsLocal(f: Fields, t: nat)
    requires f.mE == None && f.mS == None
    ensures Local(f, Idle, t)
  {
  }

  /** Sums of one thread against all: a thread that holds mtxExclusiveAccess is
  the only writer, drainer and folder there can be. */
  predicate Covered(p: PC, r: int, w: int, d: int, sl: int, sg: int, fo: int) {
    && Reader(p) <= r && Writer(p) <= w && Drainer(p) <= d && Signaller(p) <= sg
    && Sleeper(p) <= sl && sl - Sleeper(p) <= d - Drainer(p) && 0 <= fo - Folder(p)
    && (HoldsE(p) ==> w == Writer(p) && d == Drainer(p) && sl == Sleeper(p) && fo == Folder(p))
  }

  /** Steps that touch a count or change who is reading, writing or draining. */
  predicate CountStep(p: PC) {
    p.RCount? || p.RFold? || p.WCheck? || p.WTest? || p.WUndo? || p.XCheck? || p.UCount? || p.UDec?
  }

  predicate ReaderCall(p: PC) {
    p.RLockE? || p.RCount? || p.RLockS? || p.RFold? || p.RUnlockS? || p.RUnlockE? || p.Reading?
  }

  predicate WriterCall(p: PC) {
    p.WLockE? || p.WLockS? || p.WGiveUpE? || p.WCheck? || p.WWaiting? || p.WWoken? || p.WTest? || p.WUndo? ||
    p.WUndoUnlockS? || p.WUndoUnlockE? || p.Writing?
  }

  lemma PlainStep(f: Fields, p: PC, self: nat)
    requires !CountStep(p) && !p.UTest?
    ensures var (f', p') := Step(f, p, self);
            && f'.shared == f.shared && f'.excl == f.excl && f'.completed == f.completed
            && Reader(p') == Reader(p) && Writer(p') == Writer(p) && Drainer(p') == Drainer(p)
  {
    hide Step;
    if ReaderCall(p) {
      PlainReaderStep(f, p, self);
    } else if WriterCall(p) {
      PlainWriterStep(f, p, self);
    } else {
      PlainUnlockStep(f, p, self);
    }
  }

  lemma PlainReaderStep(f: Fields, p: PC, self: nat)
    requires !CountStep(p) && !p.UTest? && ReaderCall(p)
    ensures var (f', p') := Step(f, p, self);
            && f'.shared == f.shared && f'.excl == f.excl && f'.completed == f.completed
            && Reader(p') == Reader(p) && Writer(p') == Writer(p) && Drainer(p') == Drainer(p)
  {
  }

  lemma PlainWriterStep(f: Fields, p: PC, self: nat)
    requires !CountStep(p) && !p.UTest? && WriterCall(p)
    ensures var (f', p') := Step(f, p, self);
            && f'.shared == f.shared && f'.excl == f.excl && f'.completed == f.completed
            && Reader(p') == Reader(p) && Writer(p') == Writer(p) && Drainer(p') == Drainer(p)
  {
  }

  lemma PlainUnlockStep(f: Fields, p: PC, self: nat)
    requires !CountStep(p) && !p.UTest? && !ReaderCall(p) && !WriterCall(p)
    ensures var (f', p') := Step(f, p, self);
            && f'.shared == f.shared && f'.excl == f.excl && f'.completed == f.completed
            && Reader(p') == Reader(p) && Writer(p') == Writer(p) && Drainer(p') == Drainer(p)
  {
  }

  lemma StepBalanced(f: Fields, p: PC, self: nat, r: int, w: int, d: int, sl: int, sg: int, fo: int)
    requires Local(f, p, self) && Balanced(f, r, w, d) && Covered(p, r, w, d, sl, sg, fo)
    ensures var (f', p') := Step(f, p, self);
            Balanced(f', r - Reader(p) + Reader(p'), w - Writer(p) + Writer(p'), d - Drainer(p) + Drainer(p'))
  {
    if CountStep(p) || p.UTest? {
      CountStepBalanced(f, p, self, r, w, d, sl, sg, fo);
    } else {
      hide Step;
      PlainStep(f, p, self);
    }
  }

  lemma CountStepBalanced(f: Fields, p: PC, self: nat, r: int, w: int, d: int, sl: int, sg: int, fo: int)
    requires CountStep(p) || p.UTest?
    requires Local(f, p, self) && Balanced(f, r, w, d) && Covered(p, r, w, d, sl, sg, fo)
    ensures var (f', p') := Step(f, p, self);
            Balanced(f', r - Reader(p) + Reader(p'), w - Writer(p) + Writer(p'), d - Drainer(p) + Drainer(p'))
  {
    if p.RCount? || p.RFold? {
      EnterStepBalanced(f, p, self, r, w, d, sl, sg, fo);
    } else if p.UCount? || p.UDec? || p.UTest? {
      LeaveStepBalanced(f, p, self, r, w, d, sl, sg, fo);
    } else {
      WriterStepBalanced(f, p, self, r, w, d, sl, sg, fo);
    }
  }

  lemma EnterStepBalanced(f: Fields, p: PC, self: nat, r: int, w: int, d: int, sl: int, sg: int, fo: int)
    requires p.RCount? || p.RFold?
    requires Local(f, p, self) && Balanced(f, r, w, d) && Covered(p, r, w, d, sl, sg, fo)
    ensures var (f', p') := Step(f, p, self);
            Balanced(f', r - Reader(p) + Reader(p'), w - Writer(p) + Writer(p'), d - Drainer(p) + Drainer(p'))
  {
  }

  lemma LeaveStepBalanced(f: Fields, p: PC, self: nat, r: int, w: int, d: int, sl: int, sg: int, fo: int)
    requires p.UCount? || p.UDec? || p.UTest?
    requires Local(f, p, self) && Balanced(f, r, w, d) && Covered(p, r, w, d, sl, sg, fo)
    ensures var (f', p') := Step(f, p, self);
            Balanced(f', r - Reader(p) + Reader(p'), w - Writer(p) + Writer(p'), d - Drainer(p) + Drainer(p'))
  {
  }

  lemma WriterStepBalanced(f: Fields, p: PC, self: nat, r: int, w: int, d: int, sl: int, sg: int, fo: int)
    requires p.WCheck? || p.WTest? || p.WUndo? || p.XCheck?
    requires Local(f, p, self) && Balanced(f, r, w, d) && Covered(p, r, w, d, sl, sg, fo)
    ensures var (f', p') := Step(f, p, self);
            Balanced(f', r - Reader(p) + Reader(p'), w - Writer(p) + Writer(p'), d - Drainer(p) + Drainer(p'))
  {
  }

  lemma StepKeepsWakeup(f: Fields, p: PC, self: nat, r: int, w: int, d: int, sl: int, sg: int, fo: int)
    requires Ready(f, p) && Local(f, p, self) && Balanced(f, r, w, d) && Covered(p, r, w, d, sl, sg, fo)
    requires WakeupComing(f, sl, sg)
    ensures var (f', p') := Step(f, p, self);
            WakeupComing(f', sl - Sleeper(p) + Sleeper(p'), sg - Signaller(p) + Signaller(p'))
  {
  }

  lemma StepKeepsBound(f: Fields, p: PC, self: nat, r: int, w: int, d: int, sl: int, sg: int, fo: int)
    requires Ready(f, p) && Local(f, p, self) && Balanced(f, r, w, d) && Covered(p, r, w, d, sl, sg, fo)
    requires Bounded(f, fo) && r < INT_MAX
    ensures var (f', p') := Step(f, p, self); Bounded(f', fo - Folder(p) + Folder(p'))
  {
  }

  lemma ReadOfExcl(f: Fields, p: PC, self: nat, r: int, w: int, d: int, sl: int, sg: int, fo: int)
    requires Local(f, p, self) && Balanced(f, r, w, d) && Covered(p, r, w, d, sl, sg, fo)
    ensures p.UTest? ==> (f.excl != 0 <==> p.writer)
    ensures p.WCheck? || p.XCheck? ==> f.excl == 0
  {
  }

  lemma ReaderKeepsOwn(f: Fields, p: PC, self: nat)
    requires Ready(f, p) && Local(f, p, self) && ReaderCall(p)
    ensures var (f', p') := Step(f, p, self);
            && Local(f', p', self)
            && (f'.mE.Some? ==> f'.mE in {f.mE, Some(self)}) && (f'.mS.Some? ==> f'.mS in {f.mS, Some(self)})
  {
  }

  lemma WriterKeepsOwn(f: Fields, p: PC, self: nat)
    requires Ready(f, p) && Local(f, p, self) && WriterCall(p)
    ensures var (f', p') := Step(f, p, self);
            && Local(f', p', self)
            && (f'.mE.Some? ==> f'.mE in {f.mE, Some(self)}) && (f'.mS.Some? ==> f'.mS in {f.mS, Some(self)})
  {
  }

  lemma UnlockKeepsOwn(f: Fields, p: PC, self: nat)
    requires Ready(f, p) && Local(f, p, self) && !ReaderCall(p) && !WriterCall(p)
    requires p.UTest? ==> (f.excl != 0 <==> p.writer)
    requires p.XCheck? ==> f.excl == 0
    ensures var (f', p') := Step(f, p, self);
            && Local(f', p', self)
            && (f'.mE.Some? ==> f'.mE in {f.mE, Some(self)}) && (f'.mS.Some? ==> f'.mS in {f.mS, Some(self)})
  {
  }

  lemma StepKeepsOwn(f: Fields, p: PC, self: nat)
    requires Ready(f, p) && Local(f, p, self)
    requires p.UTest? ==> (f.excl != 0 <==> p.writer)
    requires p.XCheck? ==> f.excl == 0
    ensures var (f', p') := Step(f, p, self);
            && Local(f', p', self)
            && (f'.mE.Some? ==> f'.mE in {f.mE, Some(self)}) && (f'.mS.Some? ==> f'.mS in {f.mS, Some(self)})
  {
    hide Step, Local, Ready;
    if ReaderCall(p) {
      ReaderKeepsOwn(f, p, self);
    } else if WriterCall(p) {
      WriterKeepsOwn(f, p, self);
    } else {
      UnlockKeepsOwn(f, p, self);
    }
  }

  lemma StepKeepsOther(f: Fields, p: PC, self: nat, q: PC, other: nat)
    requires Ready(f, p) && Local(f, p, self) && Local(f, q, other) && self != other
    ensures Local(Step(f, p, self).0, q, other)
  {
  }

  lemma CallKeeps(f: Fields, p: PC, p': PC, t: nat)
    requires Call(p, p') && Local(f, p, t)
    ensures Local(f, p', t) && Reader(p') == Reader(p) && Writer(p') == Writer(p) && Drainer(p') == Drainer(p)
    ensures Sleeper(p') <= Sleeper(p) && Signaller(p') == Signaller(p) && Folder(p') == Folder(p)
  {
  }

  lemma SumsAfterMove(pc: seq<PC>, t: nat, p: PC)
    requires t < |pc|
    ensures Sum(pc[t := p], Reader) == Sum(pc, Reader) - Reader(pc[t]) + Reader(p)
    ensures Sum(pc[t := p], Writer) == Sum(pc, Writer) - Writer(pc[t]) + Writer(p)
    ensures Sum(pc[t := p], Drainer) == Sum(pc, Drainer) - Drainer(pc[t]) + Drainer(p)
    ensures Sum(pc[t := p], Sleeper) == Sum(pc, Sleeper) - Sleeper(pc[t]) + Sleeper(p)
    ensures Sum(pc[t := p], Signaller) == Sum(pc, Signaller) - Signaller(pc[t]) + Signaller(p)
    ensures Sum(pc[t := p], Folder) == Sum(pc, Folder) - Folder(pc[t]) + Folder(p)
  {
    SumUpdate(pc, t, p, Reader);
    SumUpdate(pc, t, p, Writer);
    SumUpdate(pc, t, p, Drainer);
    SumUpdate(pc, t, p, Sleeper);
    SumUpdate(pc, t, p, Signaller);
    SumUpdate(pc, t, p, Folder);
  }

  lemma SumsCovered(f: Fields, pc: seq<PC>, t: nat)
    requires t < |pc| && forall j: nat :: j < |pc| ==> Local(f, pc[j], j)
    ensures Covered(pc[t], Sum(pc, Reader), Sum(pc, Writer), Sum(pc, Drainer), Sum(pc, Sleeper), Sum(pc, Signaller),
                    Sum(pc, Folder))
  {
    hide Sum;
    SumBounds(pc, Reader);
    SumBounds(pc, Writer);
    SumBounds(pc, Drainer);
    SumBounds(pc, Signaller);
    SumBounds(pc, Sleeper);
    SumBounds(pc, Folder);
    SumsAfterMove(pc, t, Idle);
    SumMonotone(pc[t := Idle], Sleeper, Drainer);
    if HoldsE(pc[t]) {
      forall j | 0 <= j < |pc| && j != t
        ensures Writer(pc[j]) == 0 && Drainer(pc[j]) == 0 && Sleeper(pc[j]) == 0 && Folder(pc[j]) == 0
      {
        assert Local(f, pc[j], j) && Local(f, pc[t], t);
      }
      SumSingle(pc, t, Writer);
      SumSingle(pc, t, Drainer);
      SumSingle(pc, t, Sleeper);
      SumSingle(pc, t, Folder);
    }
  }

  lemma AdvanceInv(s: State, t: nat)
    requires Inv(s) && CanAdvance(s, t)
    ensures Inv(Advance(s, t))
  {
    hide Sum, Step, Local, Ready, Balanced, WakeupComing, Covered;
    var (f, p) := Step(s.f, s.pc[t], t);
    var r, w, d := Sum(s.pc, Reader), Sum(s.pc, Writer), Sum(s.pc, Drainer);
    var sl, sg, fo := Sum(s.pc, Sleeper), Sum(s.pc, Signaller), Sum(s.pc, Folder);
    SumsAfterMove(s.pc, t, p);
    SumsCovered(s.f, s.pc, t);
    StepBalanced(s.f, s.pc[t], t, r, w, d, sl, sg, fo);
    StepKeepsWakeup(s.f, s.pc[t], t, r, w, d, sl, sg, fo);
    ReadOfExcl(s.f, s.pc[t], t, r, w, d, sl, sg, fo);
    StepKeepsOwn(s.f, s.pc[t], t);
    forall j: nat | j < |s.pc| && j != t ensures Local(f, s.pc[j], j) {
      StepKeepsOther(s.f, s.pc[t], t, s.pc[j], j);
    }
  }

  lemma BeginInv(s: State, t: nat, p: PC)
    requires Inv(s) && t < |s.pc| && Call(s.pc[t], p)
    ensures Inv(s.(pc := s.pc[t := p]))
  {
    hide Sum, Local, Call, Balanced;
    SumsAfterMove(s.pc, t, p);
    CallKeeps(s.f, s.pc[t], p, t);
  }

  lemma NextInv()
    ensures Preserves(Inv, Next)
  {
    hide Inv, Advance, CanAdvance, Call;
    forall s, s' | Inv(s) && Next(s, s') ensures Inv(s') {
      if Continue(s, s') {
        var t: nat :| CanAdvance(s, t) && s' == Advance(s, t);
        AdvanceInv(s, t);
      } else {
        var t: nat, p: PC :| t < |s.pc| && Call(s.pc[t], p) && s' == s.(pc := s.pc[t := p]);
        BeginInv(s, t, p);
      }
    }
  }

  ghost predicate Reached(s: State) {
    Reachable(Init, Next, s)
  }

  lemma ReachedInv(s: State)
    requires Reached(s)
    ensures Inv(s)
  {
    NextInv();
    forall s0 | Init(s0) ensures Inv(s0) { InitInv(s0); }
    ReachableInvariant(Init, Inv, Next, s);
  }

  // ---------------------------------------------------------- theorems

  /** Writers exclude readers and each other. */
  lemma WritersExclude(s: State, t: nat, u: nat)
    requires Reached(s) && t < |s.pc| && u < |s.pc| && t != u && Writer(s.pc[t]) == 1
    ensures Writer(s.pc[u]) == 0 && Reader(s.pc[u]) == 0
  {
    ReachedInv(s);
    hide Sum;
    SumBounds(s.pc, Reader);
    SumPair(s.pc, t, u, Writer);
  }

  /** The active readers can be read off the counters: the difference of the
  two, or the negated completed count while a writer drains; and while a writer
  holds the lock both counts are 0. */
  lemma ReadersFromCounters(s: State)
    requires Reached(s)
    ensures (exists t :: 0 <= t < |s.pc| && Drainer(s.pc[t]) == 1) ==> Sum(s.pc, Reader) == -s.f.completed
    ensures (forall t :: 0 <= t < |s.pc| ==> Drainer(s.pc[t]) == 0) ==>
              Sum(s.pc, Reader) == s.f.shared - s.f.completed && 0 <= s.f.completed
    ensures (exists t :: 0 <= t < |s.pc| && Writer(s.pc[t]) == 1) ==> s.f.shared == 0 && s.f.completed == 0
  {
    ReachedInv(s);
    hide Sum;
    SumBounds(s.pc, Drainer);
    SumBounds(s.pc, Writer);
    if forall t :: 0 <= t < |s.pc| ==> Drainer(s.pc[t]) == 0 {
      SumZero(s.pc, Drainer);
    }
  }

  /** Giving up a drain, by timeout or cancellation, leaves the counters exactly
  as if the writer had never come: no completed reader outstanding, and every
  active reader counted as shared. */
  lemma UndoRestores(s: State, t: nat)
    requires Reached(s) && t < |s.pc| && s.pc[t].WUndo?
    ensures var s' := Advance(s, t);
            s'.f.shared == Sum(s.pc, Reader) == Sum(s'.pc, Reader) && s'.f.completed == 0 && s'.f.excl == 0
  {
    ReachedInv(s);
    hide Sum;
    SumsCovered(s.f, s.pc, t);
    SumUpdate(s.pc, t, Advance(s, t).pc[t], Reader);
  }

  /** The unlocked read in unlock is nonzero exactly for the writer, so it
  always takes the caller's own branch. */
  lemma UnlockedReadIsRight(s: State, t: nat)
    requires Reached(s) && t < |s.pc| && s.pc[t].UTest?
    ensures s.f.excl != 0 <==> s.pc[t].writer
    ensures Advance(s, t).pc[t] == if s.pc[t].writer then UDec else UCountLock
  {
    ExclByCaller(s, t);
  }

  lemma ExclByCaller(s: State, t: nat)
    requires Reached(s) && t < |s.pc|
    ensures s.pc[t].UTest? ==> (s.f.excl != 0 <==> s.pc[t].writer)
    ensures s.pc[t].WCheck? || s.pc[t].XCheck? ==> s.f.excl == 0
  {
    hide Sum, Balanced, Local, Covered;
    ReachedInv(s);
    SumsCovered(s.f, s.pc, t);
    ReadOfExcl(s.f, s.pc[t], t, Sum(s.pc, Reader), Sum(s.pc, Writer), Sum(s.pc, Drainer), Sum(s.pc, Sleeper),
               Sum(s.pc, Signaller), Sum(s.pc, Folder));
  }

  /** Whoever has just obtained both mutexes reads 0, so the writers' other
  branch and the final branch of trywrlock are never taken. */
  lemma FreshHolderSeesZero(s: State, t: nat)
    requires Reached(s) && t < |s.pc|
    ensures s.pc[t].WCheck? || s.pc[t].XCheck? ==> s.f.excl == 0
    ensures !s.pc[t].XLeak?
  {
    ExclByCaller(s, t);
    ReachedInv(s);
    assert Local(s.f, s.pc[t], t);
  }

  /** What keeps the shared count within int: fewer than INT_MAX readers. */
  ghost predicate InBounds(s: State) {
    Inv(s) && Bounded(s.f, Sum(s.pc, Folder)) && Sum(s.pc, Reader) < INT_MAX
  }

  lemma BoundStep(s: State, s': State)
    requires InBounds(s) && Next(s, s') && Sum(s'.pc, Reader) < INT_MAX
    ensures InBounds(s')
  {
    hide Sum, Step, Local, Ready, Balanced, WakeupComing, Bounded, Covered, Call;
    NextInv();
    if Continue(s, s') {
      var t: nat :| CanAdvance(s, t) && s' == Advance(s, t);
      SumsCovered(s.f, s.pc, t);
      SumUpdate(s.pc, t, s'.pc[t], Folder);
      StepKeepsBound(s.f, s.pc[t], t, Sum(s.pc, Reader), Sum(s.pc, Writer), Sum(s.pc, Drainer), Sum(s.pc, Sleeper),
                     Sum(s.pc, Signaller), Sum(s.pc, Folder));
    } else {
      var t: nat, p: PC :| t < |s.pc| && Call(s.pc[t], p) && s' == s.(pc := s.pc[t := p]);
      CallKeeps(s.f, s.pc[t], p, t);
      SumUpdate(s.pc, t, p, Folder);
    }
  }

  /** As long as fewer than INT_MAX readers are inside, those between the count
  and the fold included, the counts stay within int, however many locks and
  unlocks the run has. */
  lemma CountBounds(run: seq<State>)
    requires Path(Next, run) && Init(run[0]) && forall i :: 0 <= i < |run| ==> Sum(run[i].pc, Reader) < INT_MAX
    ensures var s := run[|run| - 1];
            && 0 <= s.f.shared <= INT_MAX && 0 <= s.f.excl <= 1 && -INT_MAX < s.f.completed <= INT_MAX
            && ((forall t :: 0 <= t < |s.pc| ==> Folder(s.pc[t]) == 0) ==> s.f.shared < INT_MAX)
  {
    hide Inv, Next, Sum;
    InitInv(run[0]);
    var next := (s: State, s': State) => Next(s, s') && Sum(s'.pc, Reader) < INT_MAX;
    forall s, s' | InBounds(s) && next(s, s') ensures InBounds(s') { BoundStep(s, s'); }
    InvariantAlongRun(InBounds, next, run);
    BoundsOf(run[|run| - 1]);
  }

  lemma BoundsOf(s: State)
    requires InBounds(s)
    ensures 0 <= s.f.shared <= INT_MAX && 0 <= s.f.excl <= 1 && -INT_MAX < s.f.completed <= INT_MAX
    ensures (forall t :: 0 <= t < |s.pc| ==> Folder(s.pc[t]) == 0) ==> s.f.shared < INT_MAX
  {
    hide Sum;
    if forall t :: 0 <= t < |s.pc| ==> Folder(s.pc[t]) == 0 {
      SumZero(s.pc, Folder);
    }
  }

  // ------------------------------------------------ no way back without it

  predicate AcquiringRead(p: PC) {
    p == RLockE(false) || p.RCount? || p.RLockS? || p.RFold? || p.RUnlockS? || p.RUnlockE?
  }

  predicate AcquiringWrite(p: PC) {
    p == WLockE(false) || p == WLockS(false) || p.WCheck? || p.WWaiting? || p == WWoken(true) || p == WTest(true)
  }

  /** The thread's wait for the readers times out or is cancelled. */
  ghost predicate GivesUp(s: State, s': State, t: nat) {
    t < |s.pc| && s.pc[t] == WWaiting && s' == s.(pc := s.pc[t := WWoken(false)])
  }

  lemma AcquiringStep(s: State, s': State, t: nat)
    requires Next(s, s') && t < |s.pc|
    ensures t < |s'.pc|
    ensures AcquiringRead(s.pc[t]) ==> AcquiringRead(s'.pc[t]) || s'.pc[t] == Reading
    ensures AcquiringWrite(s.pc[t]) ==> AcquiringWrite(s'.pc[t]) || s'.pc[t] == Writing || GivesUp(s, s', t)
  {
    if Continue(s, s') {
      var u: nat :| CanAdvance(s, u) && s' == Advance(s, u);
      assert u != t ==> s'.pc[t] == s.pc[t];
    }
  }

  /** An untimed rdlock never comes back without the lock: on every run from its
  first step to a state where the thread is idle again, it reads in between. */
  lemma ReadLockHolds(run: seq<State>, t: nat)
    requires Path(Next, run) && t < |run[0].pc| && AcquiringRead(run[0].pc[t])
    requires t < |run[|run| - 1].pc| && run[|run| - 1].pc[t] == Idle
    ensures exists i :: 0 <= i < |run| && t < |run[i].pc| && run[i].pc[t] == Reading
  {
    hide Next;
    var inside := (s: State) => t < |s.pc| && AcquiringRead(s.pc[t]);
    var gate := (s: State) => t < |s.pc| && s.pc[t] == Reading;
    forall s, s' | Next(s, s') && inside(s) ensures inside(s') || gate(s') { AcquiringStep(s, s', t); }
    LeavesThrough(Next, inside, gate, run);
  }

  /** And an untimed wrlock only if its wait is cancelled. */
  lemma WriteLockHolds(run: seq<State>, t: nat)
    requires Path(Next, run) && t < |run[0].pc| && AcquiringWrite(run[0].pc[t])
    requires t < |run[|run| - 1].pc| && run[|run| - 1].pc[t] == Idle
    requires forall i :: 0 <= i < |run| - 1 ==> !GivesUp(run[i], run[i + 1], t)
    ensures exists i :: 0 <= i < |run| && t < |run[i].pc| && run[i].pc[t] == Writing
  {
    hide Next, GivesUp;
    var inside := (s: State) => t < |s.pc| && AcquiringWrite(s.pc[t]);
    var gate := (s: State) => t < |s.pc| && s.pc[t] == Writing;
    var next := (s: State, s': State) => Next(s, s') && !GivesUp(s, s', t);
    forall s, s' | next(s, s') && inside(s) ensures inside(s') || gate(s') { AcquiringStep(s, s', t); }
    LeavesThrough(next, inside, gate, run);
  }

  /** An idle thread may make any of the calls, timed waits may expire and a wait
  for the readers may end at any moment. */
  lemma EveryCallOpen(s: State, t: nat, p: PC)
    requires t < |s.pc|
    requires match s.pc[t]
             case Idle => p.RLockE? || p.WLockE? || p == XLockE
             case WLockE(timed) => timed && p == Idle
             case WLockS(timed) => timed && p == WGiveUpE
             case WWaiting => p.WWoken?
             case _ => false
    ensures Begin(s, s.(pc := s.pc[t := p]))
  {
    assert Call(s.pc[t], p);
  }

  // ---------------------------------------------------------- progress

  function Rank(p: PC): int {
    match p
    case Idle | XLeak => 0
    case UDecUnlockE => 1
    case WGiveUpE | UDecUnlockS => 2
    case UDec | WUndoUnlockE | XUnlockE => 3
    case UUnlockS | WUndoUnlockS | XUnlockS => 4
    case WUndo => 5
    case USignal => 8
    case UCount => 9
    case UCountLock => 10
    case UTest(_) => 11
    case Reading | Writing => 12
    case WWaiting | RUnlockE => 13
    case WTest(_) | RUnlockS => 14
    case WWoken(_) | RFold => 15
    case WCheck | XCheck | RLockS => 16
    case WLockS(_) | XLockS | RCount => 17
    case WLockE(_) | XLockE | RLockE(_) => 18
  }

  ghost function Measure(s: State): int {
    Sum(s.pc, Rank) + if s.f.woken then 3 else 0
  }

  lemma StepLowersRank(f: Fields, p: PC, self: nat)
    requires Ready(f, p)
    ensures var (f', p') := Step(f, p, self);
            Rank(p') + (if f'.woken then 3 else 0) < Rank(p) + (if f.woken then 3 else 0)
  {
  }

  // -------------------------------------------------- calls run alone

  predicate Returned(p: PC) { p.Idle? || p.Reading? || p.Writing? }

  /** The steps of thread self from p to the end of the call or to a wait, if nobody
  comes in between. */
  ghost function Alone(f: Fields, p: PC, self: nat): (Fields, PC)
    decreases Rank(p) + (if f.woken then 3 else 0)
  {
    if Returned(p) || !Ready(f, p) then (f, p)
    else
      StepLowersRank(f, p, self);
      Alone(Step(f, p, self).0, Step(f, p, self).1, self)
  }

  /** What a call that returns without the lock leaves as it was. */
  predicate SameReaders(f: Fields, g: Fields) {
    g.excl == f.excl && g.shared - g.completed == f.shared - f.completed && g.mE == f.mE && g.mS == f.mS
  }

  lemma FreeOfWriters(s: State)
    requires Reached(s) && s.f.mE == None
    ensures s.f.excl == 0 && Sum(s.pc, Reader) == s.f.shared - s.f.completed && 0 <= s.f.completed <= s.f.shared
  {
    hide Sum;
    ReachedInv(s);
    forall t: nat | t < |s.pc| ensures Drainer(s.pc[t]) == 0 && Writer(s.pc[t]) == 0 {
      assert Local(s.f, s.pc[t], t);
    }
    SumZero(s.pc, Drainer);
    SumZero(s.pc, Writer);
  }

  /** pthread_rwlock_trywrlock takes the lock exactly if both mutexes are free and
  nobody reads; otherwise it leaves everything as it was. */
  lemma TryWriteAlone(s: State, t: nat)
    requires Reached(s) && t < |s.pc| && s.pc[t] == XLockE
    ensures var (f, p) := Alone(s.f, XLockE, t);
            && (p == Writing <==> s.f.mE == None && s.f.mS == None && Sum(s.pc, Reader) == 0)
            && (p == Writing ==> f.excl == 1 && f.shared == 0 && f.completed == 0 && f.mE == f.mS == Some(t))
            && (p != Writing ==> p == Idle && SameReaders(s.f, f))
  {
    hide Sum, Reached;
    if s.f.mE == None { FreeOfWriters(s); }
    TryWriteEnd(s.f, t);
  }

  lemma TryWriteEnd(f: Fields, t: nat)
    requires f.mE == None ==> f.excl == 0 && 0 <= f.completed <= f.shared
    ensures var (g, p) := Alone(f, XLockE, t);
            && (p == Writing <==> f.mE == None && f.mS == None && f.shared == f.completed)
            && (p == Writing ==> g.excl == 1 && g.shared == 0 && g.completed == 0 && g.mE == g.mS == Some(t))
            && (p != Writing ==> p == Idle && SameReaders(f, g))
  {
    if f.mE == None {
      var f1 := f.(mE := Some(t));
      assert Alone(f, XLockE, t) == Alone(f1, XLockS, t);
      if f.mS == None {
        var f2 := f1.(mS := Some(t));
        assert Alone(f1, XLockS, t) == Alone(f2, XCheck, t);
        TryCheckEnd(f2, t);
      } else {
        assert Alone(f1, XUnlockE, t) == (f, Idle);
      }
    }
  }

  lemma TryCheckEnd(f: Fields, t: nat)
    requires f.mE == Some(t) && f.mS == Some(t) && f.excl == 0 && 0 <= f.completed <= f.shared
    ensures var (g, p) := Alone(f, XCheck, t);
            && (p == Writing <==> f.shared == f.completed)
            && (p == Writing ==> g.excl == 1 && g.shared == 0 && g.completed == 0 && g.mE == g.mS == Some(t))
            && (p != Writing ==> p == Idle && SameReaders(f.(mE := None, mS := None), g))
  {
    var g := Fold(f);
    assert Alone(g.(mS := None), XUnlockE, t) == (g.(mS := None, mE := None), Idle);
    assert Alone(g, XUnlockS, t) == Alone(g.(mS := None), XUnlockE, t);
  }

  /** pthread_rwlock_tryrdlock takes the lock exactly if mtxExclusiveAccess is free;
  only when its count reaches INT_MAX it waits for the other mutex first. */
  lemma TryReadAlone(s: State, t: nat)
    requires Reached(s) && t < |s.pc| && s.pc[t] == RLockE(true)
    ensures var (f, p) := Alone(s.f, RLockE(true), t);
            && (p == Reading <==> s.f.mE == None && (s.f.shared + 1 == INT_MAX ==> s.f.mS == None))
            && (p == Reading ==> SameReaders(s.f, f.(shared := f.shared - 1)))
            && (p != Reading ==> if s.f.mE == None then p == RLockS else p == Idle && f == s.f)
  {
    var f := s.f;
    if f.mE == None {
      var f1 := f.(mE := Some(t));
      assert Alone(f, RLockE(true), t) == Alone(f1, RCount, t);
      CountEnd(f1, t);
    }
  }

  lemma CountEnd(f: Fields, t: nat)
    requires f.mE == Some(t)
    ensures var (g, p) := Alone(f, RCount, t);
            && (p == Reading <==> (f.shared + 1 == INT_MAX ==> f.mS == None))
            && (p == Reading ==> SameReaders(f.(mE := None), g.(shared := g.shared - 1)))
            && (p != Reading ==> p == RLockS)
  {
    var f1 := f.(shared := f.shared + 1);
    if f.shared + 1 != INT_MAX {
      assert Alone(f1, RUnlockE, t) == (f1.(mE := None), Reading);
    } else {
      assert Alone(f, RCount, t) == Alone(f1, RLockS, t);
      if f.mS == None {
        var f2 := f1.(shared := f1.shared - f1.completed, completed := 0);
        assert Alone(f2, RUnlockE, t) == (f2.(mE := None), Reading);
        assert Alone(f2.(mS := Some(t)), RUnlockS, t) == Alone(f2, RUnlockE, t);
        assert Alone(f1.(mS := Some(t)), RFold, t) == Alone(f2.(mS := Some(t)), RUnlockS, t);
      }
    }
  }

  lemma ContinueLowersMeasure()
    ensures Preserves(Inv, Continue)
    ensures Lowers(Inv, Continue, Measure)
  {
    hide Sum, Inv, Step, Ready;
    forall s, s' | Inv(s) && Continue(s, s') ensures Inv(s') && 0 <= Measure(s') < Measure(s) {
      var t: nat :| CanAdvance(s, t) && s' == Advance(s, t);
      AdvanceInv(s, t);
      StepLowersRank(s.f, s.pc[t], t);
      SumUpdate(s.pc, t, s'.pc[t], Rank);
      SumBounds(s'.pc, Rank);
    }
  }

  ghost predicate AllReleased(s: State) {
    && s.f.mE == None && s.f.mS == None && s.f.excl == 0 && s.f.shared == s.f.completed
    && forall t: nat :: t < |s.pc| ==> s.pc[t] == Idle
  }

  lemma OwnersAreInside(s: State)
    requires Inv(s)
    ensures s.f.mE.Some? ==> s.f.mE.value < |s.pc| && HoldsE(s.pc[s.f.mE.value])
    ensures s.f.mS.Some? ==> s.f.mS.value < |s.pc| && HoldsS(s.pc[s.f.mS.value])
  {
    assert s.f.mE.Some? ==> Local(s.f, s.pc[s.f.mE.value], s.f.mE.value);
    assert s.f.mS.Some? ==> Local(s.f, s.pc[s.f.mS.value], s.f.mS.value);
  }

  lemma StuckThreads(s: State)
    requires Stuck(Continue, s)
    ensures forall t: nat :: t < |s.pc| ==> !Ready(s.f, s.pc[t])
  {
    hide Step, Ready;
    forall t: nat | t < |s.pc| ensures !Ready(s.f, s.pc[t]) {
      assert CanAdvance(s, t) ==> Continue(s, Advance(s, t));
    }
  }

  /** When nobody can move, mtxSharedAccessCompleted is free and the only
  threads inside are those at the outer mutex and a sleeping writer. */
  lemma StuckAtTheGate(s: State)
    requires Inv(s) && forall t: nat :: t < |s.pc| ==> !Ready(s.f, s.pc[t])
    ensures s.f.mS == None
    ensures forall t: nat :: t < |s.pc| ==>
              || s.pc[t] == Idle || (s.pc[t] == WWaiting && !s.f.woken)
              || (s.f.mE.Some? && !HoldsE(s.pc[t]) && Outside(s.pc[t]))
  {
    hide Sum, CountInv;
    OwnersAreInside(s);
    forall t: nat | t < |s.pc| ensures !HoldsS(s.pc[t]) && !s.pc[t].XLeak? {
      assert !Ready(s.f, s.pc[t]) && Local(s.f, s.pc[t], t);
    }
  }

  predicate Outside(p: PC) { p.WLockE? || p.RLockE? }

  lemma StuckIsAllReleased(s: State)
    requires Inv(s) && Stuck(Continue, s)
    ensures AllReleased(s)
  {
    hide Sum, Ready;
    StuckThreads(s);
    StuckAtTheGate(s);
    OwnersAreInside(s);
    SumZero(s.pc, Reader);
    SumZero(s.pc, Writer);
    SumZero(s.pc, Signaller);
    SumBounds(s.pc, Sleeper);
    SumMonotone(s.pc, Sleeper, Drainer);
    forall t: nat | t < |s.pc| ensures s.pc[t] != WWaiting {
      assert Sleeper(s.pc[t]) <= Sum(s.pc, Sleeper);
    }
    SumZero(s.pc, Drainer);
  }

  /** If every holder unlocks, nobody waits for ever: every reader and writer
  gets the lock and leaves, and the lock ends free. */
  lemma EveryCallerServed(s: State)
    requires Reached(s)
    ensures Settles(Continue, Measure, AllReleased, s)
  {
    ReachedInv(s);
    ContinueLowersMeasure();
    SumBounds(s.pc, Rank);
    forall s0 | Inv(s0) && Stuck(Continue, s0) ensures AllReleased(s0) { StuckIsAllReleased(s0); }
    Settle(Inv, Continue, Measure, AllReleased, s);
  }

  // ------------------------------------- the regions as the source runs them

  /** Readers inside: the shared count is stale while a writer drains. */
  function Readers(shared: int, completed: int): int {
    if completed < 0 then -completed else shared - completed
  }

  /** pthread_rwlock_t_; who owns the mutexes and whether the condition variable
  was signalled stands for the parts it points to. */
  class RwRecord {
    var nSharedAccessCount: int
    var nExclusiveAccessCount: int
    var nCompletedSharedAccessCount: int
    ghost var mE: Option<nat>
    ghost var mS: Option<nat>
    ghost var woken: bool

    ghost function Contents(): Fields
      reads this
    {
      Fields(nSharedAccessCount, nExclusiveAccessCount, nCompletedSharedAccessCount, mE, mS, woken)
    }

    ghost function Inside(): int
      reads this
    {
      Readers(nSharedAccessCount, nCompletedSharedAccessCount)
    }

    constructor ()
      ensures nSharedAccessCount == nExclusiveAccessCount == nCompletedSharedAccessCount == 0 && Inside() == 0
    {
      nSharedAccessCount, nExclusiveAccessCount, nCompletedSharedAccessCount := 0, 0, 0;
    }

    /** pthread_rwlock_rdlock and pthread_rwlock_tryrdlock: one reader more. */
    method CountIn(ghost self: nat) returns (full: bool)
      modifies this
      ensures (Contents(), if full then RLockS else RUnlockE) == Step(old(Contents()), RCount, self)
      ensures old(nCompletedSharedAccessCount) >= 0 ==> Inside() == old(Inside()) + 1
    {
      nSharedAccessCount := nSharedAccessCount + 1;
      full := nSharedAccessCount == INT_MAX;
    }

    /** The fold that keeps the counts small: nobody enters or leaves. */
    method FoldCompleted(ghost self: nat)
      modifies this
      ensures Contents() == Step(old(Contents()), RFold, self).0 && nCompletedSharedAccessCount == 0
      ensures old(nCompletedSharedAccessCount) >= 0 ==> Inside() == old(Inside())
    {
      nSharedAccessCount := nSharedAccessCount - nCompletedSharedAccessCount;
      nCompletedSharedAccessCount := 0;
    }

    /** pthread_rwlock_wrlock with both mutexes: a writer that finds readers starts
    to drain them, and only otherwise is in. */
    method WriterCheck() returns (wait: bool)
      modifies this
      ensures (Contents(), if wait then WWaiting else Writing) == CheckRegion(old(Contents()))
      ensures old(nExclusiveAccessCount) == 0 && old(nCompletedSharedAccessCount) >= 0 ==>
        Inside() == old(Inside()) && (wait <==> Inside() > 0) && nExclusiveAccessCount == if wait then 0 else 1
    {
      wait := false;
      if nExclusiveAccessCount == 0 {
        if nCompletedSharedAccessCount > 0 {
          nSharedAccessCount := nSharedAccessCount - nCompletedSharedAccessCount;
          nCompletedSharedAccessCount := 0;
        }
        if nSharedAccessCount > 0 {
          nCompletedSharedAccessCount := -nSharedAccessCount;
          wait := true;
        }
      }
      if wait {
        mS, woken := None, false;
      } else {
        nExclusiveAccessCount := nExclusiveAccessCount + 1;
      }
    }

    /** The draining loop, back from the condition variable: the last reader that
    leaves lets the writer in. */
    method WriterTest() returns (wait: bool)
      modifies this
      ensures (Contents(), if wait then WWaiting else Writing) == TestRegion(old(Contents()), true)
      ensures wait ==> Inside() == old(Inside()) > 0 && nExclusiveAccessCount == old(nExclusiveAccessCount)
      ensures old(nCompletedSharedAccessCount) == 0 ==>
        !wait && Inside() == 0 && nExclusiveAccessCount == old(nExclusiveAccessCount) + 1
    {
      wait := nCompletedSharedAccessCount < 0;
      if wait {
        mS, woken := None, false;
      } else {
        nSharedAccessCount := 0;
        nExclusiveAccessCount := nExclusiveAccessCount + 1;
      }
    }

    /** ptw32_rwlock_cancelwrwait: the readers still inside stay counted. */
    method CancelWait(ghost self: nat)
      modifies this
      ensures Contents() == Step(old(Contents()), WUndo, self).0 && nCompletedSharedAccessCount == 0
      ensures old(nCompletedSharedAccessCount) < 0 ==> Inside() == old(Inside())
    {
      nSharedAccessCount := -nCompletedSharedAccessCount;
      nCompletedSharedAccessCount := 0;
    }

    /** pthread_rwlock_trywrlock with both mutexes. */
    method TryWriterCheck() returns (busy: bool)
      modifies this
      ensures TryCheckRegion(old(Contents()))
           == (Contents(), if !busy then Writing else if nExclusiveAccessCount != 0 then XLeak else XUnlockS)
      ensures old(nExclusiveAccessCount) == 0 && old(nCompletedSharedAccessCount) >= 0 ==>
        Inside() == old(Inside()) && (busy <==> Inside() > 0) && nExclusiveAccessCount == if busy then 0 else 1
    {
      busy := true;
      if nExclusiveAccessCount == 0 {
        if nCompletedSharedAccessCount > 0 {
          nSharedAccessCount := nSharedAccessCount - nCompletedSharedAccessCount;
          nCompletedSharedAccessCount := 0;
        }
        if nSharedAccessCount <= 0 {
          nExclusiveAccessCount := 1;
          busy := false;
        }
      }
    }

    /** pthread_rwlock_unlock by a reader: one fewer; the last one wakes a
    draining writer. */
    method CountOut(ghost self: nat) returns (signal: bool)
      modifies this
      ensures (Contents(), if signal then USignal else UUnlockS) == Step(old(Contents()), UCount, self)
      ensures signal <==> old(nCompletedSharedAccessCount) < 0 && old(Inside()) == 1
      ensures !signal ==> Inside() == old(Inside()) - 1
    {
      nCompletedSharedAccessCount := nCompletedSharedAccessCount + 1;
      signal := nCompletedSharedAccessCount == 0;
    }

    /** pthread_rwlock_unlock by the writer. */
    method WriterOut(ghost self: nat)
      modifies this
      ensures Contents() == Step(old(Contents()), UDec, self).0 && Inside() == old(Inside())
    {
      nExclusiveAccessCount := nExclusiveAccessCount - 1;
    }
  }
}
