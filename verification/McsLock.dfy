/** The MCS queue lock of ptw32_MCS_lock.c: acquire, try-acquire, release and
node transfer, over any number of threads in any interleaving.

A step is one interlocked operation, one plain write of a link, or one event
operation, in sequentially consistent order.  An acquisition or transfer brings
a new node, or one that its caller has got back; an acquisition only if nobody is
still notifying it, or the lock may break: see NodeReuse.  Beside the source's state the
model keeps the order in which nodes were exchanged into the lock pointer, how
many have left, and which were replaced by a transfer. */
module McsLock {
  import opened Threads

  type Id = nat

  /** A flag word: 0, the handle of an event, or -1. */
  datatype Flag = Zero | Event(signalled: bool) | Set

  datatype Node = Node(
    next: Option<Id>,
    ready: Flag,         // readyFlag
    nextFlag: Flag,
    owner: nat,          // the thread that will release it
    ticket: int,         // its place in the order of exchanges, or -1
    moved: bool)         // a transfer has replaced it

  datatype PC =
    | Idle
    // ptw32_mcs_lock_acquire
    | AXchg(n: Id)
    | ALink(n: Id, pred: Id)
    | ASet(n: Id, pred: Id)     // flag_set (&pred->nextFlag)
    | ASignal(n: Id, pred: Id)  // ... an event was stored: set it
    | AWait(n: Id)              // flag_wait (&node->readyFlag)
    | AStore(n: Id)             // ... storing an event
    | ABlock(n: Id)             // ... waiting for it
    // ptw32_mcs_lock_try_acquire
    | TTry(n: Id)
    // the lock is held
    | Crit(n: Id)
    // ptw32_mcs_lock_release
    | RNext(n: Id)
    | RCas(n: Id)
    | RWait(n: Id)              // flag_wait (&node->nextFlag)
    | RStore(n: Id)
    | RBlock(n: Id)
    | RReload(n: Id)
    | RGrant(n: Id, succ: Id)   // flag_set (&next->readyFlag)
    | RSignal(succ: Id)
    | RNull                     // release follows a null next pointer
    // ptw32_mcs_node_transfer from n to m
    | XCas(n: Id, m: Id)
    | XSpin(n: Id, m: Id)
    | XCopy(n: Id, m: Id)

  datatype State = State(
    tail: Option<Id>,    // *lock
    nodes: seq<Node>,
    order: seq<Id>,      // nodes in the order of their exchanges
    head: nat,           // how many of them have left
    granter: Option<nat>, // the thread between granting the lock and setting the event
    pc: seq<PC>)

  /** The abstract queue: the holder first, then the waiters in order. */
  function Queue(s: State): seq<Id> {
    if s.head <= |s.order| then s.order[s.head..] else []
  }

  const FRESH: Node := Node(None, Zero, Zero, 0, -1, false)

  /** The nodes a program counter mentions have been allocated. */
  predicate InBounds(k: nat, p: PC) {
    match p
    case Idle => true
    case RNull => true
    case RSignal(x) => x < k
    case ALink(n, p) => n < k && p < k
    case ASet(n, p) => n < k && p < k
    case ASignal(n, p) => n < k && p < k
    case RGrant(n, x) => n < k && x < k
    case XCas(n, m) => n < k && m < k
    case XSpin(n, m) => n < k && m < k
    case XCopy(n, m) => n < k && m < k
    case _ => p.n < k
  }

  // ------------------------------------------------------------- steps

  /** Steps that read and write only the thread's own node. */
  predicate OwnStep(p: PC) {
    || p.AWait? || p.AStore? || p.ABlock? || p.Crit? || p.RNext? || p.RWait? || p.RStore? || p.RBlock? || p.RReload?
    || p.XSpin?
  }

  predicate OwnReady(x: Node, p: PC) {
    match p
    case ABlock(_) => x.ready == Event(true)
    case RBlock(_) => x.nextFlag == Event(true)
    case XSpin(_, _) => x.next.Some?
    case _ => true
  }

  function StepOwn(x: Node, p: PC): (Node, PC) {
    match p
    case AWait(n) => (x, if x.ready == Zero then AStore(n) else Crit(n))
    case AStore(n) => if x.ready == Zero then (x.(ready := Event(false)), ABlock(n)) else (x, Crit(n))
    case ABlock(n) => (x.(ready := Event(false)), Crit(n))
    case Crit(n) => (x, RNext(n))
    case RNext(n) => (x, match x.next case None => RCas(n) case Some(y) => RGrant(n, y))
    case RWait(n) => (x, if x.nextFlag == Zero then RStore(n) else RReload(n))
    case RStore(n) => if x.nextFlag == Zero then (x.(nextFlag := Event(false)), RBlock(n)) else (x, RReload(n))
    case RBlock(n) => (x.(nextFlag := Event(false)), RReload(n))
    case RReload(n) => (x, match x.next case None => RNull case Some(y) => RGrant(n, y))
    case XSpin(n, m) => (x, XCopy(n, m))
    case _ => (x, p)
  }

  /** Steps of an acquirer on its predecessor's node. */
  predicate PredStep(p: PC) { p.ALink? || p.ASet? || p.ASignal? }

  function StepPred(y: Node, p: PC): (Node, PC) {
    match p
    case ALink(n, pred) => (y.(next := Some(n)), ASet(n, pred))
    case ASet(n, pred) => if y.nextFlag == Zero then (y.(nextFlag := Set), AWait(n)) else (y, ASignal(n, pred))
    case ASignal(n, _) => (y.(nextFlag := Event(true)), AWait(n))
    case _ => (y, p)
  }

  predicate CanAdvance(s: State, t: nat) {
    && t < |s.pc| && InBounds(|s.nodes|, s.pc[t]) && s.head <= |s.order|
    && !s.pc[t].Idle? && !s.pc[t].RNull?
    && (OwnStep(s.pc[t]) ==> OwnReady(s.nodes[s.pc[t].n], s.pc[t]))
  }

  function Move(s: State, t: nat, p: PC): State
    requires t < |s.pc|
  {
    s.(pc := s.pc[t := p])
  }

  function SetNode(s: State, n: Id, x: Node): State
    requires n < |s.nodes|
  {
    s.(nodes := s.nodes[n := x])
  }

  /** The node takes the next place in the order. */
  function Enqueue(s: State, n: Id): State
    requires n < |s.nodes|
  {
    SetNode(s, n, s.nodes[n].(ticket := |s.order|)).(tail := Some(n), order := s.order + [n])
  }

  /** The new node, with the given link, takes the old one's place at the head. */
  function Replace(s: State, n: Id, m: Id, next: Option<Id>): State
    requires n < |s.nodes| && m < |s.nodes|
  {
    var nodes := s.nodes[n := s.nodes[n].(ticket := -1, moved := true)];
    s.(nodes := nodes[m := s.nodes[m].(ticket := s.head, next := next)],
       order := if s.head < |s.order| then s.order[s.head := m] else s.order)
  }

  function Advance(s: State, t: nat): State
    requires CanAdvance(s, t)
  {
    var p := s.pc[t];
    if OwnStep(p) then
      var (x, p') := StepOwn(s.nodes[p.n], p);
      Move(SetNode(s, p.n, x), t, p')
    else if PredStep(p) then
      var (y, p') := StepPred(s.nodes[p.pred], p);
      Move(SetNode(s, p.pred, y), t, p')
    else match p
    case AXchg(n) =>
      Move(Enqueue(s, n), t, match s.tail case None => Crit(n) case Some(pred) => ALink(n, pred))
    case TTry(n) => if s.tail == None then Move(Enqueue(s, n), t, Crit(n)) else Move(s, t, Idle)
    case RCas(n) =>
      if s.tail == Some(n) then Move(s, t, Idle).(tail := None, head := s.head + 1) else Move(s, t, RWait(n))
    case RGrant(n, x) =>
      if s.nodes[x].ready == Zero then
        Move(SetNode(s, x, s.nodes[x].(ready := Set)), t, Idle).(head := s.head + 1)
      else Move(s, t, RSignal(x)).(head := s.head + 1, granter := Some(t))
    case RSignal(x) => Move(SetNode(s, x, s.nodes[x].(ready := Event(true))), t, Idle).(granter := None)
    case XCas(n, m) =>
      if s.tail == Some(n) then Move(Replace(s, n, m, None), t, Crit(m)).(tail := Some(m))
      else Move(s, t, XSpin(n, m))
    case XCopy(n, m) => Move(Replace(s, n, m, s.nodes[n].next), t, Crit(m))
    case _ => s
  }

  function NewNode(s: State, t: nat): State {
    s.(nodes := s.nodes + [FRESH.(owner := t)])
  }

  /** Calls that bring node n: acquire, try-acquire, and transfer of the held
  lock to node n. */
  predicate Call(p: PC, p': PC, n: Id) {
    || (p == Idle && (p' == AXchg(n) || p' == TTry(n)))
    || (p.Crit? && p' == XCas(p.n, n))
  }

  function NewCall(s: State, t: nat, p: PC): State
    requires t < |s.pc|
  {
    Move(NewNode(s, t), t, p)
  }

  /** A held node is handed to an idle thread, which will release it. */
  function HandOff(s: State, t: nat, u: nat): State
    requires t < |s.pc| && u < |s.pc| && s.pc[t].Crit? && s.pc[t].n < |s.nodes|
  {
    var n := s.pc[t].n;
    Move(Move(SetNode(s, n, s.nodes[n].(owner := u)), t, Idle), u, Crit(n))
  }

  /** The thread's call works on node n, as its own or as another's. */
  predicate Uses(p: PC, n: Id) {
    match p
    case Idle => false
    case RNull => false
    case RSignal(x) => x == n
    case ALink(a, b) => a == n || b == n
    case ASet(a, b) => a == n || b == n
    case ASignal(a, b) => a == n || b == n
    case RGrant(a, x) => a == n || x == n
    case XCas(a, m) => a == n || m == n
    case XSpin(a, m) => a == n || m == n
    case XCopy(a, m) => a == n || m == n
    case _ => p.n == n
  }

  /** A call of the thread has brought the node, and is not over. */
  predicate Brought(p: PC, n: Id) {
    !p.Idle? && !p.RNull? && !p.RSignal? && (p.n == n || ((p.XCas? || p.XSpin? || p.XCopy?) && p.m == n))
  }

  /** The thread is still inside flag_set (&pred->nextFlag) of the node. */
  predicate Notifies(p: PC, n: Id) {
    (p.ASet? || p.ASignal?) && p.pred == n
  }

  /** The calls that brought the node are over, and unless the call p transfers
  the lock to it, nobody is still notifying it. */
  ghost predicate Reusable(s: State, p: PC, n: Id) {
    forall t: nat :: t < |s.pc| ==> !Brought(s.pc[t], n) && (p.XCas? || !Notifies(s.pc[t], n))
  }

  /** A call that brings a node used before; it starts over as a fresh one. */
  function Recycle(s: State, t: nat, p: PC, n: Id): State
    requires t < |s.pc| && n < |s.nodes|
  {
    Move(SetNode(s, n, FRESH.(owner := t)), t, p)
  }

  ghost predicate Recycles(s: State, s': State, t: nat, p: PC, n: Id) {
    t < |s.pc| && n < |s.nodes| && Reusable(s, p, n) && Call(s.pc[t], p, n) && s' == Recycle(s, t, p, n)
  }

  ghost predicate Begin(s: State, s': State) {
    || (exists t: nat, p: PC, n: Id :: Recycles(s, s', t, p, n))
    || (exists t: nat, p: PC :: t < |s.pc| && Call(s.pc[t], p, |s.nodes|) && s' == NewCall(s, t, p))
    || (exists t: nat, u: nat :: t < |s.pc| && u < |s.pc| && s.pc[t].Crit? && s.pc[t].n < |s.nodes| && s.pc[u] == Idle
                                 && s' == HandOff(s, t, u))
  }

  ghost predicate Continue(s: State, s': State) {
    exists t: nat :: t < |s.pc| && CanAdvance(s, t) && s' == Advance(s, t)
  }

  ghost predicate Next(s: State, s': State) {
    Continue(s, s') || Begin(s, s')
  }

  ghost predicate Init(s: State) {
    && s.tail == None && s.nodes == [] && s.order == [] && s.head == 0 && s.granter == None
    && forall t :: 0 <= t < |s.pc| ==> s.pc[t] == Idle
  }

  // --------------------------------------------------------- invariant

  predicate Acquiring(p: PC) {
    p.ALink? || p.ASet? || p.ASignal? || p.AWait? || p.AStore? || p.ABlock?
  }

  predicate Releasing(p: PC) {
    p.Crit? || p.RNext? || p.RCas? || p.RWait? || p.RStore? || p.RBlock? || p.RReload? || p.RGrant? ||
    p.XCas? || p.XSpin? || p.XCopy?
  }

  /** The thread's node is in the queue. */
  predicate Queued(p: PC) { Acquiring(p) || Releasing(p) }

  predicate HasFresh(p: PC) { p.AXchg? || p.TTry? || p.XCas? || p.XSpin? || p.XCopy? }

  function FreshOf(p: PC): Id
    requires HasFresh(p)
  {
    if p.AXchg? || p.TTry? then p.n else p.m
  }

  /** Releasers past the read of a null next pointer. */
  predicate LateRelease(p: PC) { p.RCas? || p.RWait? || p.RStore? || p.RBlock? || p.RReload? }

  /** What is behind a place: the next node and where its thread is. */
  datatype Behind = Last | Then(b: Id, q: PC)

  /** A place that is not the head: its thread is still acquiring, and its ready
  flag has not been set. */
  predicate Waiting(x: Node, p: PC) {
    Acquiring(p) && x.ready == (if p.ABlock? then Event(false) else Zero)
  }

  /** The link to the next place is written unless its thread is just about to,
  and until then nobody has set the next flag. */
  predicate Linked(a: Id, x: Node, p: PC, next: Behind) {
    && (match next
        case Last => x.next == None
        case Then(b, q) => if q.ALink? then q.pred == a && x.next == None else x.next == Some(b))
    && (x.next == None ==> x.nextFlag == (if p.RBlock? then Event(false) else Zero))
  }

  /** The head has been granted the lock and will learn of it, or holds it. */
  predicate Granted(x: Node, p: PC, granting: bool) {
    Acquiring(p) ==>
      && !p.ALink?
      && if p.ABlock? then x.ready.Event? && (!x.ready.signalled ==> granting) else x.ready == Set
  }

  /** A holder that gives up the lock knows its successor, or waits for it and
  will be told. */
  predicate Parting(a: Id, x: Node, p: PC, next: Behind) {
    && ((LateRelease(p) && !p.RCas?) || p.XSpin? || p.XCopy? || p.RGrant? ==> next.Then?)
    && (p.RReload? || p.XCopy? ==> x.next.Some?)
    && (p.RGrant? ==> x.next == Some(p.succ))
    && (LateRelease(p) && !p.RReload? && x.next.Some? && next.Then? ==>
          if next.q.ASet? then next.q.pred == a && x.nextFlag == (if p.RBlock? then Event(false) else Zero)
          else if next.q.ASignal? then next.q.pred == a && p.RBlock? && x.nextFlag == Event(false)
          else x.nextFlag == (if p.RBlock? then Event(true) else Set))
  }

  predicate PlaceOk(front: bool, a: Id, x: Node, p: PC, next: Behind, granting: bool) {
    && Queued(p) && p.n == a
    && Linked(a, x, p, next)
    && (if front then Granted(x, p, granting) && Parting(a, x, p, next) else Waiting(x, p))
  }

  predicate InPlace(s: State, i: int)
    requires 0 <= i < |s.order|
  {
    var a := s.order[i];
    a < |s.nodes| && s.nodes[a].ticket == i && s.nodes[a].owner < |s.pc|
  }

  function BehindOf(s: State, i: int): Behind
    requires 0 <= i < |s.order| && (i + 1 < |s.order| ==> InPlace(s, i + 1))
  {
    if i + 1 < |s.order| then Then(s.order[i + 1], s.pc[s.nodes[s.order[i + 1]].owner]) else Last
  }

  /** The queue at place i, and the place behind it. */
  predicate Place(s: State, i: int)
    requires 0 <= i < |s.order|
  {
    && InPlace(s, i) && (i + 1 < |s.order| ==> InPlace(s, i + 1))
    && var x := s.nodes[s.order[i]];
       PlaceOk(i == s.head, s.order[i], x, s.pc[x.owner], BehindOf(s, i), s.granter.Some?)
  }

  /** A notifying thread is linked, and finds an event only if the predecessor's
  owner, who is at o, is waiting for it. */
  predicate PredOk(y: Node, p: PC, o: PC) {
    && (p.ASet? ==> y.next == Some(p.n) && (y.nextFlag == Zero || (y.nextFlag == Event(false) && o == RBlock(p.pred))))
    && (p.ASignal? ==> y.next == Some(p.n) && y.nextFlag == Event(false) && o == RBlock(p.pred))
  }

  /** A linking or notifying thread stands right behind its predecessor's place,
  where a transfer may meanwhile have replaced the predecessor. */
  predicate Follows(x: Node, y: Node, pred: Id, order: seq<Id>, head: nat) {
    0 < x.ticket <= |order| && (order[x.ticket - 1] == pred || (y.moved && x.ticket <= head + 1))
  }

  function OwnerPc(s: State, n: Id): PC {
    if n < |s.nodes| && s.nodes[n].owner < |s.pc| then s.pc[s.nodes[n].owner] else Idle
  }

  predicate TransfersTo(o: PC, n: Id) { (o.XCas? || o.XSpin? || o.XCopy?) && o.m == n }

  /** The predecessor has left, and the holder brings it back by a transfer; the
  notifying thread is the next one. */
  predicate Renotifies(s: State, p: PC)
    requires PredStep(p) && InBounds(|s.nodes|, p)
  {
    && p.ASet? && s.nodes[p.n].ticket == s.head + 1
    && s.nodes[p.pred] == FRESH.(owner := s.nodes[p.pred].owner) && TransfersTo(OwnerPc(s, p.pred), p.pred)
  }

  predicate Notified(s: State, p: PC)
    requires PredStep(p) && InBounds(|s.nodes|, p)
  {
    || (PredOk(s.nodes[p.pred], p, OwnerPc(s, p.pred))
        && Follows(s.nodes[p.n], s.nodes[p.pred], p.pred, s.order, s.head))
    || Renotifies(s, p)
  }

  /** A node that is brought, before it is queued; the target of a transfer may
  already be notified if somebody is behind the holder. */
  predicate FreshOk(x: Node, p: PC, t: nat, behind: bool) {
    x == FRESH.(owner := t) || (!p.AXchg? && !p.TTry? && behind && x == FRESH.(owner := t, nextFlag := Set))
  }

  /** A queued thread's own node. */
  predicate OwnOk(x: Node, p: PC, t: nat, head: nat, order: seq<Id>)
    requires Queued(p)
  {
    && x.owner == t && head <= x.ticket < |order| && order[x.ticket] == p.n
    && (Releasing(p) ==> x.ticket == head)
    && (p.ALink? ==> head < x.ticket && order[x.ticket - 1] == p.pred)
  }

  /** The node of a granted thread that still has to be woken. */
  predicate WakeOk(x: Node, succ: Id, head: nat, order: seq<Id>, pc: seq<PC>) {
    && head < |order| && order[head] == succ && x.ready == Event(false)
    && x.owner < |pc| && pc[x.owner] == ABlock(succ)
  }

  /** What holds for thread t. */
  predicate Local(s: State, t: nat)
    requires t < |s.pc|
  {
    var p := s.pc[t];
    && InBounds(|s.nodes|, p) && !p.RNull?
    && (Queued(p) ==> OwnOk(s.nodes[p.n], p, t, s.head, s.order))
    && (PredStep(p) ==> Notified(s, p))
    && (HasFresh(p) ==> FreshOk(s.nodes[FreshOf(p)], p, t, s.head + 1 < |s.order|))
    && (p.RSignal? <==> s.granter == Some(t))
    && (p.RSignal? ==> WakeOk(s.nodes[p.succ], p.succ, s.head, s.order, s.pc))
  }

  ghost predicate Inv(s: State) {
    && s.head <= |s.order|
    && s.tail == (if s.head == |s.order| then None else Some(s.order[|s.order| - 1]))
    && (s.granter.Some? ==> s.granter.value < |s.pc|)
    && (forall i :: s.head <= i < |s.order| ==> Place(s, i))
    && (forall t: nat :: t < |s.pc| ==> Local(s, t))
  }

  lemma InitInv(s: State)
    requires Init(s)
    ensures Inv(s)
  {
  }

  // Own steps, on plain values.

  lemma OwnKeepsOwn(front: bool, a: Id, x: Node, p: PC, next: Behind, granting: bool)
    requires PlaceOk(front, a, x, p, next, granting) && OwnStep(p) && OwnReady(x, p)
    ensures var (x', p') := StepOwn(x, p);
            && PlaceOk(front, a, x', p', next, granting)
            && x'.owner == x.owner && x'.ticket == x.ticket && x'.next == x.next && x'.moved == x.moved
            && (Releasing(p') ==> front)
  {
  }

  /** Where an own step leads. */
  lemma OwnStepLeads(front: bool, a: Id, x: Node, p: PC, next: Behind, granting: bool)
    requires PlaceOk(front, a, x, p, next, granting) && OwnStep(p) && OwnReady(x, p)
    ensures var p' := StepOwn(x, p).1;
            && Queued(p') && p'.n == a && !PredStep(p')
            && (HasFresh(p') ==> HasFresh(p) && FreshOf(p') == FreshOf(p))
            && (p'.RGrant? ==> next.Then? && p'.succ == next.b)
  {
  }

  lemma OwnKeepsFront(front: bool, a: Id, x: Node, p: PC, b: Id, y: Node, q: PC, granting: bool)
    requires PlaceOk(front, a, x, p, Then(b, q), granting) && OwnStep(q)
    ensures PlaceOk(front, a, x, p, Then(b, StepOwn(y, q).1), granting)
  {
  }

  lemma OwnKeepsPredOk(x: Node, p: PC, q: PC)
    requires OwnStep(p) && OwnReady(x, p) && PredStep(q) && p.n == q.pred && PredOk(x, q, p)
    ensures PredOk(StepOwn(x, p).0, q, StepOwn(x, p).1)
  {
  }

  // Predecessor steps, on plain values.

  /** When the predecessor is still the place in front. */
  lemma PredKeepsFront(front: bool, y: Node, p: PC, q: PC, granting: bool)
    requires PredStep(q) && PlaceOk(front, q.pred, y, p, Then(q.n, q), granting) && PredOk(y, q, p)
    ensures var (y', q') := StepPred(y, q);
            && PlaceOk(front, q.pred, y', p, Then(q.n, q'), granting)
            && y'.owner == y.owner && y'.ticket == y.ticket && y'.ready == y.ready && y'.moved == y.moved
            && Acquiring(q') && q'.n == q.n && PredOk(y', q', p)
  {
  }

  /** When the predecessor has left, nobody in front depends on the step. */
  lemma PredKeepsStranger(front: bool, a: Id, x: Node, p: PC, y: Node, q: PC, granting: bool)
    requires PredStep(q) && PlaceOk(front, a, x, p, Then(q.n, q), granting) && q.pred != a
    ensures PlaceOk(front, a, x, p, Then(q.n, StepPred(y, q).1), granting)
  {
  }

  lemma PredKeepsOwn(front: bool, a: Id, x: Node, q: PC, y: Node, next: Behind, granting: bool)
    requires PredStep(q) && PlaceOk(front, a, x, q, next, granting)
    ensures PlaceOk(front, a, x, StepPred(y, q).1, next, granting)
  {
  }

  // Lifting to the whole state.

  /** A queued thread's own place, and that it is the only one that is its own. */
  lemma OwnPlaceOf(s: State, t: nat, i: int)
    requires Inv(s) && t < |s.pc| && s.head <= i < |s.order|
    ensures Place(s, i) && Local(s, t)
    ensures Queued(s.pc[t]) ==>
              var k := s.nodes[s.pc[t].n].ticket;
              && s.head <= k < |s.order| && s.order[k] == s.pc[t].n && Place(s, k) && s.nodes[s.order[k]].owner == t
    ensures s.nodes[s.order[i]].owner == t ==> Queued(s.pc[t]) && s.order[i] == s.pc[t].n
    ensures i + 1 < |s.order| && s.nodes[s.order[i + 1]].owner == t ==> Queued(s.pc[t]) && s.order[i + 1] == s.pc[t].n
  {
    assert Place(s, i) && Local(s, t);
    assert i + 1 < |s.order| ==> Place(s, i + 1);
  }

  lemma LocalOf(s: State, t: nat)
    requires Inv(s) && t < |s.pc|
    ensures Local(s, t) && InBounds(|s.nodes|, s.pc[t]) && s.head <= |s.order|
    ensures PredStep(s.pc[t]) ==> Notified(s, s.pc[t])
    ensures HasFresh(s.pc[t]) ==> FreshOk(s.nodes[FreshOf(s.pc[t])], s.pc[t], t, s.head + 1 < |s.order|)
    ensures s.pc[t].RSignal? ==> WakeOk(s.nodes[s.pc[t].succ], s.pc[t].succ, s.head, s.order, s.pc)
  {
  }

  lemma OwnEffect(s: State, t: nat)
    requires CanAdvance(s, t) && OwnStep(s.pc[t])
    ensures Queued(s.pc[t]) && s.pc[t].n < |s.nodes| && OwnReady(s.nodes[s.pc[t].n], s.pc[t])
    ensures Advance(s, t) == Move(SetNode(s, s.pc[t].n, StepOwn(s.nodes[s.pc[t].n], s.pc[t]).0), t,
                                  StepOwn(s.nodes[s.pc[t].n], s.pc[t]).1)
  {
  }

  lemma PredEffect(s: State, t: nat)
    requires CanAdvance(s, t) && PredStep(s.pc[t])
    ensures Queued(s.pc[t]) && s.pc[t].n < |s.nodes| && s.pc[t].pred < |s.nodes|
    ensures Advance(s, t) == Move(SetNode(s, s.pc[t].pred, StepPred(s.nodes[s.pc[t].pred], s.pc[t]).0), t,
                                  StepPred(s.nodes[s.pc[t].pred], s.pc[t]).1)
  {
  }

  lemma OwnStepPlace(s: State, t: nat, i: int)
    requires Inv(s) && CanAdvance(s, t) && OwnStep(s.pc[t]) && s.head <= i < |s.order|
    ensures Place(Advance(s, t), i)
  {
    hide Inv, PlaceOk, StepOwn, OwnReady, Advance;
    OwnPlaceOf(s, t, i);
    var p := s.pc[t];
    OwnEffect(s, t);
    var x, k := s.nodes[p.n], s.nodes[p.n].ticket;
    hide CanAdvance, OwnStep;
    OwnKeepsOwn(k == s.head, p.n, x, p, BehindOf(s, k), s.granter.Some?);
    if i + 1 == k {
      var a := s.order[i];
      OwnKeepsFront(i == s.head, a, s.nodes[a], s.pc[s.nodes[a].owner], p.n, x, p, s.granter.Some?);
    }
  }

  lemma OwnStepSelf(s: State, t: nat)
    requires Inv(s) && CanAdvance(s, t) && OwnStep(s.pc[t])
    ensures Local(Advance(s, t), t)
  {
    assert Local(s, t);
    var p := s.pc[t];
    var x, k := s.nodes[p.n], s.nodes[p.n].ticket;
    OwnPlaceOf(s, t, k);
    OwnEffect(s, t);
    OwnKeepsOwn(k == s.head, p.n, x, p, BehindOf(s, k), s.granter.Some?);
    OwnStepLeads(k == s.head, p.n, x, p, BehindOf(s, k), s.granter.Some?);
    hide Inv, PlaceOk, StepOwn, OwnReady, Advance, CanAdvance, OwnStep;
  }

  /** A thread that does not move keeps what holds for it, if its own nodes stay
  and it is still where it should be in what it notifies or wakes. */
  lemma OtherLocal(s: State, s': State, u: nat)
    requires u < |s.pc| && u < |s'.pc| && s'.pc[u] == s.pc[u] && Local(s, u)
    requires |s.nodes| <= |s'.nodes| && s'.head == s.head && s.order <= s'.order
    requires s'.granter == Some(u) <==> s.granter == Some(u)
    requires Queued(s.pc[u]) ==>
      s'.nodes[s.pc[u].n].owner == s.nodes[s.pc[u].n].owner && s'.nodes[s.pc[u].n].ticket == s.nodes[s.pc[u].n].ticket
    requires HasFresh(s.pc[u]) ==> FreshOk(s'.nodes[FreshOf(s.pc[u])], s.pc[u], u, s'.head + 1 < |s'.order|)
    requires PredStep(s.pc[u]) ==> Notified(s', s.pc[u])
    requires s.pc[u].RSignal? ==> WakeOk(s'.nodes[s.pc[u].succ], s.pc[u].succ, s'.head, s'.order, s'.pc)
    ensures Local(s', u)
  {
    hide Notified, WakeOk, FreshOk;
  }

  /** A notifying thread is where it should be as long as its predecessor's node
  and the place of its owner stay what matters to it. */
  lemma NotifiedKept(s: State, s': State, q: PC)
    requires PredStep(q) && InBounds(|s.nodes|, q) && Notified(s, q) && |s.nodes| <= |s'.nodes|
    requires s'.nodes[q.pred] == s.nodes[q.pred].(ready := s'.nodes[q.pred].ready)
    requires s'.nodes[q.n].ticket == s.nodes[q.n].ticket && s.order <= s'.order && s.head <= s'.head
    requires OwnerPc(s, q.pred) == RBlock(q.pred) ==> OwnerPc(s', q.pred) == RBlock(q.pred)
    requires TransfersTo(OwnerPc(s, q.pred), q.pred) && s.nodes[q.pred].ticket == -1 ==>
      && TransfersTo(OwnerPc(s', q.pred), q.pred) && s'.head == s.head
      && s'.nodes[q.pred] == s.nodes[q.pred]
    ensures Notified(s', q)
  {
  }

  /** A thread that is about to be woken stays so while others do their own steps. */
  lemma WakeStays(s: State, t: nat, u: nat)
    requires Inv(s) && CanAdvance(s, t) && (OwnStep(s.pc[t]) || PredStep(s.pc[t]))
    requires u < |s.pc| && u != t && s.pc[u].RSignal?
    ensures s.pc[u].succ < |s.nodes|
    ensures var s' := Advance(s, t); WakeOk(s'.nodes[s.pc[u].succ], s.pc[u].succ, s.head, s.order, s'.pc)
  {
    assert Local(s, t) && Local(s, u);
    if OwnStep(s.pc[t]) { OwnEffect(s, t); } else { PredEffect(s, t); }
    hide Inv, Place, PredOk, Follows, Advance, CanAdvance;
  }

  lemma OwnStepNotified(s: State, t: nat, u: nat)
    requires Inv(s) && CanAdvance(s, t) && OwnStep(s.pc[t]) && u < |s.pc| && u != t && PredStep(s.pc[u])
    ensures InBounds(|s.nodes|, s.pc[u]) && Notified(Advance(s, t), s.pc[u])
  {
    assert Local(s, t) && Local(s, u);
    OwnEffect(s, t);
    var p, q := s.pc[t], s.pc[u];
    var x, k := s.nodes[p.n], s.nodes[p.n].ticket;
    OwnPlaceOf(s, t, k);
    OwnKeepsOwn(k == s.head, p.n, x, p, BehindOf(s, k), s.granter.Some?);
    OwnStepLeads(k == s.head, p.n, x, p, BehindOf(s, k), s.granter.Some?);
    hide Inv, Place, PlaceOk, Advance, CanAdvance;
    if q.pred == p.n && !Renotifies(s, q) {
      OwnKeepsPredOk(x, p, q);
    }
    OwnStepTransfers(x, p, q.pred);
    hide StepOwn;
  }

  lemma OwnStepTransfers(x: Node, p: PC, m: Id)
    requires OwnStep(p)
    ensures TransfersTo(p, m) ==> TransfersTo(StepOwn(x, p).1, m)
    ensures p == RBlock(m) ==> p.n == m
  {
  }

  lemma OwnStepNode(s: State, t: nat)
    requires Inv(s) && CanAdvance(s, t) && OwnStep(s.pc[t])
    ensures var (n, s') := (s.pc[t].n, Advance(s, t));
            && t < |s.pc| == |s'.pc| && n < |s.nodes| == |s'.nodes|
            && s'.nodes == s.nodes[n := s'.nodes[n]] && s.nodes[n].owner == t
            && s'.nodes[n].owner == t && s'.nodes[n].ticket == s.nodes[n].ticket
            && s'.order == s.order && s'.head == s.head && s'.granter == s.granter && s'.pc == s.pc[t := s'.pc[t]]
  {
    assert Local(s, t);
    OwnEffect(s, t);
    var p := s.pc[t];
    var x, k := s.nodes[p.n], s.nodes[p.n].ticket;
    OwnPlaceOf(s, t, k);
    OwnKeepsOwn(k == s.head, p.n, x, p, BehindOf(s, k), s.granter.Some?);
    hide Inv, Place, PlaceOk, StepOwn, Notified, InBounds, Advance;
  }

  lemma OwnStepOther(s: State, t: nat, u: nat)
    requires Inv(s) && CanAdvance(s, t) && OwnStep(s.pc[t]) && u < |s.pc| && u != t
    ensures Local(Advance(s, t), u)
  {
    hide Inv, Place, PlaceOk, StepOwn, Notified, WakeOk, Advance, CanAdvance;
    OwnStepNode(s, t);
    LocalOf(s, u);
    if PredStep(s.pc[u]) { OwnStepNotified(s, t, u); }
    if s.pc[u].RSignal? { WakeStays(s, t, u); }
    OtherLocal(s, Advance(s, t), u);
  }

  /** The predecessor of a linking thread is the place in front of it, or has left. */
  lemma PredecessorPlace(s: State, t: nat, i: int)
    requires Inv(s) && t < |s.pc| && PredStep(s.pc[t]) && s.head <= i < |s.order|
    ensures Local(s, t) && Place(s, i) && s.pc[t].pred != s.pc[t].n
    ensures s.order[i] == s.pc[t].pred ==> i + 1 == s.nodes[s.pc[t].n].ticket
    ensures s.pc[t].ALink? ==> s.head < s.nodes[s.pc[t].n].ticket && Place(s, s.nodes[s.pc[t].n].ticket - 1)
                               && s.order[s.nodes[s.pc[t].n].ticket - 1] == s.pc[t].pred
  {
    assert Local(s, t) && Place(s, i) && Place(s, s.nodes[s.pc[t].n].ticket);
    assert s.pc[t].ALink? ==> Place(s, s.nodes[s.pc[t].n].ticket - 1);
  }

  lemma PredStepPlace(s: State, t: nat, i: int)
    requires Inv(s) && CanAdvance(s, t) && PredStep(s.pc[t]) && s.head <= i < |s.order|
    ensures Place(Advance(s, t), i)
  {
    hide Inv, PlaceOk, StepPred, Advance;
    OwnPlaceOf(s, t, i);
    PredecessorPlace(s, t, i);
    hide CanAdvance;
    var q := s.pc[t];
    var y, k := s.nodes[q.pred], s.nodes[q.n].ticket;
    var a := s.order[i];
    PredEffect(s, t);
    StepPredKeeps(y, q);
    if i == k {
      PredKeepsOwn(i == s.head, a, s.nodes[a], q, y, BehindOf(s, i), s.granter.Some?);
    } else if i + 1 == k {
      if a == q.pred {
        PredKeepsFront(i == s.head, y, s.pc[y.owner], q, s.granter.Some?);
      } else {
        PredKeepsStranger(i == s.head, a, s.nodes[a], s.pc[s.nodes[a].owner], y, q, s.granter.Some?);
      }
    }
  }

  lemma StepPredKeeps(y: Node, q: PC)
    requires PredStep(q)
    ensures var (y', q') := StepPred(y, q);
            && y'.owner == y.owner && y'.ticket == y.ticket && y'.ready == y.ready && y'.moved == y.moved
            && Acquiring(q') && !q'.ALink? && q'.n == q.n && (PredStep(q') ==> q'.pred == q.pred)
            && forall o :: PredOk(if q.ALink? then y' else y, if q.ALink? then q' else q, o) ==> PredOk(y', q', o)
  {
  }

  lemma PredStepSelf(s: State, t: nat)
    requires Inv(s) && CanAdvance(s, t) && PredStep(s.pc[t])
    ensures Local(Advance(s, t), t)
  {
    hide Inv;
    LocalOf(s, t);
    var q := s.pc[t];
    PredecessorPlace(s, t, s.nodes[q.n].ticket);
    StepPredKeeps(s.nodes[q.pred], q);
    PredEffect(s, t);
    if q.ALink? { LinkPending(s, t); }
    hide CanAdvance;
  }

  lemma PredStepNotified(s: State, t: nat, u: nat)
    requires Inv(s) && CanAdvance(s, t) && PredStep(s.pc[t]) && u < |s.pc| && u != t && PredStep(s.pc[u])
    ensures InBounds(|s.nodes|, s.pc[u]) && Notified(Advance(s, t), s.pc[u])
  {
    hide Inv, Local, Place, StepPred, Advance, PredOk;
    LocalOf(s, t);
    LocalOf(s, u);
    var q := s.pc[t];
    PredEffect(s, t);
    hide CanAdvance;
    StepPredKeeps(s.nodes[q.pred], q);
    if s.pc[u].pred == q.pred {
      OnlyNotifier(s, t, u);
      LinkerOk(Advance(s, t).nodes[q.pred], s.pc[u], OwnerPc(Advance(s, t), q.pred));
    } else {
      hide Notified;
      NotifiedKept(s, Advance(s, t), s.pc[u]);
    }
  }

  lemma LinkerOk(y: Node, p: PC, o: PC)
    requires p.ALink?
    ensures PredOk(y, p, o)
  {
  }

  /** Two threads with the same predecessor: the one has linked itself and left the
  queue behind, the other is only about to link itself. */
  lemma OnlyNotifier(s: State, t: nat, u: nat)
    requires Inv(s) && t < |s.pc| && u < |s.pc| && t != u && PredStep(s.pc[t]) && PredStep(s.pc[u])
    requires s.pc[t].pred == s.pc[u].pred
    ensures Local(s, u) && s.pc[u].ALink? && PredOk(s.nodes[s.pc[u].pred], s.pc[u], OwnerPc(s, s.pc[u].pred))
  {
    assert Local(s, t) && Local(s, u);
    if s.pc[t].ALink? { LinkPending(s, t); }
    hide Inv, Place;
  }

  lemma PredStepOther(s: State, t: nat, u: nat)
    requires Inv(s) && CanAdvance(s, t) && PredStep(s.pc[t]) && u < |s.pc| && u != t
    ensures Local(Advance(s, t), u)
  {
    assert Local(s, t) && Local(s, u);
    var q := s.pc[t];
    StepPredKeeps(s.nodes[q.pred], q);
    PredEffect(s, t);
    if s.pc[u].RSignal? { WakeStays(s, t, u); }
    if PredStep(s.pc[u]) { PredStepNotified(s, t, u); }
    if HasFresh(s.pc[u]) { PredStepFresh(s, t, u); }
    hide Inv, StepPred, Place, Advance, CanAdvance, InBounds, Notified, WakeOk, FreshOk;
    OtherLocal(s, Advance(s, t), u);
  }

  /** Only the target of a transfer can be notified before it is queued. */
  lemma PredStepFresh(s: State, t: nat, u: nat)
    requires Inv(s) && CanAdvance(s, t) && PredStep(s.pc[t]) && u < |s.pc| && u != t && HasFresh(s.pc[u])
    ensures InBounds(|s.nodes|, s.pc[u])
    ensures FreshOk(Advance(s, t).nodes[FreshOf(s.pc[u])], s.pc[u], u, s.head + 1 < |s.order|)
  {
    assert Local(s, t) && Local(s, u);
    if s.pc[t].ALink? { LinkPending(s, t); }
    PredEffect(s, t);
    hide Inv, Place, Advance, CanAdvance;
  }

  /** Until a thread links itself, its predecessor's link is empty. */
  lemma LinkPending(s: State, t: nat)
    requires Inv(s) && t < |s.pc| && s.pc[t].ALink?
    ensures Local(s, t) && s.nodes[s.pc[t].pred].next == None && s.nodes[s.pc[t].pred].ticket >= 0
    ensures s.nodes[s.pc[t].pred].nextFlag in {Zero, Event(false)}
  {
    assert Local(s, t);
    PredecessorPlace(s, t, s.nodes[s.pc[t].n].ticket);
  }

  lemma EnqueueBehind(front: bool, a: Id, x: Node, p: PC, n: Id, granting: bool)
    requires PlaceOk(front, a, x, p, Last, granting)
    ensures PlaceOk(front, a, x, p, Then(n, ALink(n, a)), granting)
  {
  }

  lemma EnqueuePlace(s: State, t: nat, i: int)
    requires Inv(s) && CanAdvance(s, t) && (s.pc[t].AXchg? || s.pc[t].TTry?)
    requires s.head <= i < |Advance(s, t).order|
    ensures Place(Advance(s, t), i)
  {
    assert Local(s, t);
    if i < |s.order| {
      OwnPlaceOf(s, t, i);
      var a := s.order[i];
      if i + 1 == |s.order| && s.pc[t].AXchg? {
        EnqueueBehind(i == s.head, a, s.nodes[a], s.pc[s.nodes[a].owner], s.pc[t].n, s.granter.Some?);
      }
      hide Inv, PlaceOk;
    }
  }

  lemma EnqueueSelf(s: State, t: nat)
    requires Inv(s) && CanAdvance(s, t) && (s.pc[t].AXchg? || s.pc[t].TTry?)
    ensures Local(Advance(s, t), t)
  {
    hide PlaceOk;
    LastPlace(s, t);
    hide Inv;
  }

  lemma LastPlace(s: State, t: nat)
    requires Inv(s) && t < |s.pc|
    ensures Local(s, t) && Frame(s)
    ensures s.tail.Some? ==> s.head < |s.order| && Place(s, |s.order| - 1)
  {
  }

  /** Before it exchanges its node, nobody else works with it. */
  lemma FreshUnused(s: State, t: nat, n: Id, v: nat)
    requires Inv(s) && t < |s.pc| && (s.pc[t] == AXchg(n) || s.pc[t] == TTry(n)) && v < |s.pc| && v != t
    ensures n < |s.nodes| && s.nodes[n] == FRESH.(owner := t) && !Uses(s.pc[v], n)
  {
    assert Local(s, t) && Local(s, v);
    if s.pc[v].RGrant? { GrantTarget(s, v); }
    if s.pc[v].ALink? { PredecessorPlace(s, v, s.nodes[s.pc[v].n].ticket); }
    if s.pc[v].RSignal? { assert Place(s, s.head); }
    hide Inv, PlaceOk;
  }

  lemma EnqueueOther(s: State, t: nat, u: nat)
    requires Inv(s) && CanAdvance(s, t) && (s.pc[t].AXchg? || s.pc[t].TTry?) && u < |s.pc| && u != t
    ensures Local(Advance(s, t), u)
  {
    hide Inv, Local, Place, Notified, WakeOk, FreshOk, Advance;
    LocalOf(s, u);
    var s', n := Advance(s, t), s.pc[t].n;
    EnqueueEffect(s, t);
    hide CanAdvance;
    FreshUnused(s, t, n, u);
    if PredStep(s.pc[u]) { NotifiedKept(s, s', s.pc[u]); }
    if HasFresh(s.pc[u]) {
      FreshBehind(s.nodes[FreshOf(s.pc[u])], s.pc[u], u, s.head + 1 < |s.order|, s.head + 1 < |s'.order|);
    }
    if s.pc[u].RSignal? {
      WakeApartOwner(s, t, s.pc[u].succ);
      WakeApart(s, s', s.pc[u].succ);
    }
    OtherLocal(s, s', u);
  }

  lemma FreshBehind(x: Node, p: PC, t: nat, behind: bool, behind': bool)
    requires FreshOk(x, p, t, behind) && (behind ==> behind')
    ensures FreshOk(x, p, t, behind')
  {
  }

  lemma EnqueueEffect(s: State, t: nat)
    requires CanAdvance(s, t) && (s.pc[t].AXchg? || s.pc[t].TTry?)
    ensures var (n, s') := (s.pc[t].n, Advance(s, t));
            && n < |s.nodes| && s'.nodes == s.nodes[n := s'.nodes[n]] && s'.nodes[n].owner == s.nodes[n].owner
            && s.order <= s'.order && s'.head == s.head && s'.granter == s.granter && s'.pc == s.pc[t := s'.pc[t]]
  {
  }

  /** The thread that is about to be woken is blocked, and stays so. */
  lemma WakeApart(s: State, s': State, x: Id)
    requires x < |s.nodes| && WakeOk(s.nodes[x], x, s.head, s.order, s.pc)
    requires |s.nodes| <= |s'.nodes| && s'.nodes[x] == s.nodes[x] && s'.head == s.head && s.order <= s'.order
    requires |s.pc| <= |s'.pc| && s'.pc[s.nodes[x].owner] == s.pc[s.nodes[x].owner]
    ensures WakeOk(s'.nodes[x], x, s'.head, s'.order, s'.pc)
  {
  }

  /** The head's own place, and the last one. */
  lemma HeadPlace(s: State, t: nat)
    requires Inv(s) && t < |s.pc| && Releasing(s.pc[t])
    ensures Local(s, t) && s.head < |s.order| && s.order[s.head] == s.pc[t].n && Place(s, s.head)
    ensures Place(s, |s.order| - 1)
    ensures s.nodes[s.pc[t].n].owner == t
    ensures s.tail == Some(s.pc[t].n) <==> s.head + 1 == |s.order|
    ensures forall u: nat :: u < |s.pc| && u != t ==> !Releasing(s.pc[u]) && !s.pc[u].RSignal?
    ensures s.granter == None
  {
    assert Local(s, t) && Place(s, s.head) && Place(s, |s.order| - 1);
    forall u: nat | u < |s.pc| && u != t ensures !Releasing(s.pc[u]) && !s.pc[u].RSignal? {
      assert Local(s, u);
    }
    assert s.granter.Some? ==> Local(s, s.granter.value);
  }

  lemma CasFails(a: Id, x: Node, p: PC, next: Behind, granting: bool)
    requires (p.RCas? || p.XCas?) && PlaceOk(true, a, x, p, next, granting) && next.Then?
    ensures PlaceOk(true, a, x, if p.RCas? then RWait(a) else XSpin(a, p.m), next, granting)
  {
  }

  lemma CasPlace(s: State, t: nat, i: int)
    requires Inv(s) && CanAdvance(s, t) && (s.pc[t].RCas? || s.pc[t].XCas?) && Advance(s, t).head <= i < |s.order|
    ensures |Advance(s, t).order| == |s.order| && Place(Advance(s, t), i)
  {
    HeadPlace(s, t);
    OwnPlaceOf(s, t, i);
    if s.tail != Some(s.pc[t].n) {
      CasFails(s.pc[t].n, s.nodes[s.pc[t].n], s.pc[t], BehindOf(s, s.head), s.granter.Some?);
      hide Inv, PlaceOk;
    }
  }

  lemma CasSelf(s: State, t: nat)
    requires Inv(s) && CanAdvance(s, t) && (s.pc[t].RCas? || s.pc[t].XCas?)
    ensures Local(Advance(s, t), t)
  {
    HeadPlace(s, t);
    hide Inv, Place;
  }

  lemma CasOther(s: State, t: nat, u: nat)
    requires Inv(s) && CanAdvance(s, t) && (s.pc[t].RCas? || s.pc[t].XCas?) && u < |s.pc| && u != t
    ensures Local(Advance(s, t), u)
  {
    HeadPlace(s, t);
    assert Local(s, u);
    hide Inv, Place;
  }

  /** Granting the lock to the place behind. */
  lemma GrantNext(b: Id, y: Node, q: PC, next: Behind)
    requires PlaceOk(false, b, y, q, next, false) && !q.ALink?
    ensures y.ready == Zero ==> PlaceOk(true, b, y.(ready := Set), q, next, false)
    ensures y.ready != Zero ==> y.ready == Event(false) && q == ABlock(b) && PlaceOk(true, b, y, q, next, true)
  {
  }

  lemma GrantingElsewhere(b: Id, y: Node, q: PC, next: Behind, g: bool, g': bool)
    requires PlaceOk(false, b, y, q, next, g)
    ensures PlaceOk(false, b, y, q, next, g')
  {
  }

  /** The successor a holder is about to grant is the place behind it, linked. */
  lemma GrantTarget(s: State, t: nat)
    requires Inv(s) && t < |s.pc| && s.pc[t].RGrant?
    ensures Local(s, t) && s.head + 1 < |s.order| && s.order[s.head] == s.pc[t].n && s.order[s.head + 1] == s.pc[t].succ
    ensures Place(s, s.head + 1) && Place(s, s.head) && !s.pc[s.nodes[s.pc[t].succ].owner].ALink?
  {
    HeadPlace(s, t);
    assert Place(s, s.head + 1);
  }

  lemma GrantPlace(s: State, t: nat, i: int)
    requires Inv(s) && CanAdvance(s, t) && s.pc[t].RGrant? && s.head + 1 <= i < |s.order|
    ensures Place(Advance(s, t), i)
  {
    HeadPlace(s, t);
    GrantTarget(s, t);
    OwnPlaceOf(s, t, i);
    var b := s.order[i];
    var y := s.nodes[b];
    hide Inv, PlaceOk;
    if i == s.head + 1 {
      GrantNext(b, y, s.pc[y.owner], BehindOf(s, i));
    } else {
      GrantingElsewhere(b, y, s.pc[y.owner], BehindOf(s, i), false, true);
    }
  }

  lemma GrantEffect(s: State, t: nat)
    requires Inv(s) && CanAdvance(s, t) && s.pc[t].RGrant?
    ensures s.pc[t].succ < |s.nodes|
    ensures var (x, s') := (s.pc[t].succ, Advance(s, t));
            && s'.order == s.order && s'.head == s.head + 1
            && s'.nodes == s.nodes[x := s'.nodes[x]]
            && s'.pc == s.pc[t := s'.pc[t]]
            && if s.nodes[x].ready == Zero
               then s'.nodes[x] == s.nodes[x].(ready := Set) && s'.pc[t] == Idle && s'.granter == None
               else s'.nodes[x] == s.nodes[x] && s'.pc[t] == RSignal(x) && s'.granter == Some(t)
                    && WakeOk(s.nodes[x], x, s'.head, s'.order, s'.pc)
  {
    HeadPlace(s, t);
    GrantTarget(s, t);
    var y := s.nodes[s.pc[t].succ];
    GrantNext(s.pc[t].succ, y, s.pc[y.owner], BehindOf(s, s.head + 1));
    hide Inv, PlaceOk, Local;
  }

  lemma GrantSelf(s: State, t: nat)
    requires Inv(s) && CanAdvance(s, t) && s.pc[t].RGrant?
    ensures Local(Advance(s, t), t)
  {
    GrantEffect(s, t);
    hide Inv, Place, Advance, CanAdvance, WakeOk;
  }

  /** A queued thread other than the holder is behind the head. */
  lemma GrantOther(s: State, t: nat, u: nat)
    requires Inv(s) && CanAdvance(s, t) && s.pc[t].RGrant? && u < |s.pc| && u != t
    ensures Local(Advance(s, t), u)
  {
    HeadPlace(s, t);
    GrantEffect(s, t);
    GrantKeepsFresh(s, t, u);
    if PredStep(s.pc[u]) { GrantNotified(s, t, u); }
    hide Inv, Place, Advance, CanAdvance, WakeOk, Local, Notified;
    BystanderKeeps(s, Advance(s, t), u);
  }

  /** The head has gone on, and of a node no more than ready has changed. */
  lemma BystanderKeeps(s: State, s': State, u: nat)
    requires u < |s.pc| && Local(s, u) && |s'.pc| == |s.pc| && s'.pc[u] == s.pc[u]
    requires s'.order == s.order && s'.head == s.head + 1 && |s'.nodes| == |s.nodes|
    requires forall k :: 0 <= k < |s.nodes| ==> s'.nodes[k] == s.nodes[k].(ready := s'.nodes[k].ready)
    requires !Releasing(s.pc[u]) && !s.pc[u].RSignal? && s'.granter != Some(u)
    requires PredStep(s.pc[u]) ==> Notified(s', s.pc[u])
    requires HasFresh(s.pc[u]) ==>
      FreshOf(s.pc[u]) < |s.nodes| && s'.nodes[FreshOf(s.pc[u])] == s.nodes[FreshOf(s.pc[u])]
    requires Queued(s.pc[u]) ==>
      && s.pc[u].n < |s.nodes| && s.head < s.nodes[s.pc[u].n].ticket
      && (s.pc[u].ALink? ==> s.head + 1 < s.nodes[s.pc[u].n].ticket)
    ensures Local(s', u)
  {
    hide WakeOk, Notified;
  }

  lemma GrantNotified(s: State, t: nat, u: nat)
    requires Inv(s) && CanAdvance(s, t) && s.pc[t].RGrant? && u < |s.pc| && u != t && PredStep(s.pc[u])
    ensures InBounds(|s.nodes|, s.pc[u]) && Notified(Advance(s, t), s.pc[u])
  {
    hide Inv, Local, Place, Advance, WakeOk, Notified, FreshOk;
    HeadPlace(s, t);
    GrantEffect(s, t);
    LocalOf(s, u);
    hide CanAdvance;
    NotifiedKept(s, Advance(s, t), s.pc[u]);
  }

  /** A fresh node is not yet queued. */
  lemma GrantKeepsFresh(s: State, t: nat, u: nat)
    requires Inv(s) && t < |s.pc| && u < |s.pc| && s.pc[t].RGrant?
    ensures Local(s, u) && (HasFresh(s.pc[u]) ==> FreshOf(s.pc[u]) < |s.nodes| && FreshOf(s.pc[u]) != s.pc[t].succ)
    ensures Queued(s.pc[u]) ==> s.pc[u].n < |s.nodes|
    ensures Queued(s.pc[u]) && u != t ==> s.head < s.nodes[s.pc[u].n].ticket
    ensures s.pc[u].ALink? ==> s.head + 1 < s.nodes[s.pc[u].n].ticket
  {
    GrantTarget(s, t);
    assert Local(s, u);
    hide Inv, PlaceOk, WakeOk, PredOk;
  }

  lemma SignalHead(a: Id, x: Node, next: Behind, g: bool)
    requires PlaceOk(true, a, x, ABlock(a), next, true)
    ensures PlaceOk(true, a, x.(ready := Event(true)), ABlock(a), next, g)
  {
  }

  lemma SignalPlace(s: State, t: nat, i: int)
    requires Inv(s) && CanAdvance(s, t) && s.pc[t].RSignal? && s.head <= i < |s.order|
    ensures Place(Advance(s, t), i)
  {
    assert Local(s, t);
    OwnPlaceOf(s, t, i);
    var a := s.order[i];
    var x := s.nodes[a];
    assert Place(s, s.head);
    hide Inv, PlaceOk;
    if i == s.head {
      SignalHead(a, x, BehindOf(s, i), false);
    } else {
      GrantingElsewhere(a, x, s.pc[x.owner], BehindOf(s, i), true, false);
    }
  }

  lemma SignalLocal(s: State, t: nat, u: nat)
    requires Inv(s) && CanAdvance(s, t) && s.pc[t].RSignal? && u < |s.pc|
    ensures Local(Advance(s, t), u)
  {
    if u == t {
      SignalSelf(s, t);
    } else {
      hide Inv, Local, Place, Notified, FreshOk, WakeOk, Advance, CanAdvance;
      LocalOf(s, u);
      SignalPlaceHead(s, t, u);
      SignalEffect(s, t);
      if PredStep(s.pc[u]) { NotifiedKept(s, Advance(s, t), s.pc[u]); }
      OtherLocal(s, Advance(s, t), u);
    }
  }

  lemma SignalEffect(s: State, t: nat)
    requires CanAdvance(s, t) && s.pc[t].RSignal?
    ensures var (x, s') := (s.pc[t].succ, Advance(s, t));
            && t < |s.pc| == |s'.pc| && x < |s.nodes| == |s'.nodes|
            && s'.nodes == s.nodes[x := s.nodes[x].(ready := Event(true))]
            && s'.order == s.order && s'.head == s.head && s'.granter == None && s'.pc == s.pc[t := Idle]
  {
  }

  lemma SignalSelf(s: State, t: nat)
    requires Inv(s) && CanAdvance(s, t) && s.pc[t].RSignal?
    ensures Local(Advance(s, t), t)
  {
    LocalOf(s, t);
    hide Inv, Place;
  }

  /** The node that is woken is in the queue, and nobody else wakes anybody. */
  lemma SignalPlaceHead(s: State, t: nat, u: nat)
    requires Inv(s) && CanAdvance(s, t) && s.pc[t].RSignal? && u < |s.pc| && u != t
    ensures s.pc[t].succ < |s.nodes| && s.nodes[s.pc[t].succ].ticket >= 0 && s.granter == Some(t) && !s.pc[u].RSignal?
    ensures HasFresh(s.pc[u]) ==> FreshOf(s.pc[u]) != s.pc[t].succ
  {
    assert Local(s, t) && Local(s, u) && Place(s, s.head);
    hide Inv, PlaceOk, Notified;
  }

  lemma CopyHead(a: Id, x: Node, m: Id, y: Node, p: PC, next: Behind, g: bool)
    requires p == XCopy(a, m) && PlaceOk(true, a, x, p, next, g)
    ensures x.next.Some? && next.Then? && !next.q.ALink?
    ensures PlaceOk(true, m, y.(next := x.next), Crit(m), next, g)
  {
  }

  lemma CopyPlace(s: State, t: nat, i: int)
    requires Inv(s) && CanAdvance(s, t) && s.pc[t].XCopy? && s.head <= i < |s.order|
    ensures |Advance(s, t).order| == |s.order| && Place(Advance(s, t), i)
  {
    HeadPlace(s, t);
    OwnPlaceOf(s, t, i);
    var p := s.pc[t];
    CopyHead(p.n, s.nodes[p.n], p.m, s.nodes[p.m].(ticket := s.head), p, BehindOf(s, s.head), s.granter.Some?);
    hide Inv, PlaceOk;
  }

  lemma CopyLocal(s: State, t: nat, u: nat)
    requires Inv(s) && CanAdvance(s, t) && s.pc[t].XCopy? && u < |s.pc|
    ensures Local(Advance(s, t), u)
  {
    if u == t {
      CopySelf(s, t);
    } else {
      hide Inv, Local, Place, Notified, WakeOk, FreshOk, Advance;
      HeadPlace(s, t);
      LocalOf(s, u);
      LocalOf(s, t);
      CopyEffect(s, t);
      if PredStep(s.pc[u]) { CopyNotified(s, t, u); }
      hide CanAdvance;
      CopyOther(s, Advance(s, t), t, u);
    }
  }

  lemma CopyEffect(s: State, t: nat)
    requires CanAdvance(s, t) && s.pc[t].XCopy? && s.head < |s.order|
    ensures var (n, m, s') := (s.pc[t].n, s.pc[t].m, Advance(s, t));
            && n < |s.nodes| && m < |s.nodes| && s'.order == s.order[s.head := m] && s'.head == s.head
            && s'.nodes == s.nodes[n := s.nodes[n].(ticket := -1, moved := true)][m := s'.nodes[m]]
            && (n != m ==> s'.nodes[m] == s.nodes[m].(ticket := s.head, next := s.nodes[n].next))
            && s'.granter == s.granter && s'.pc == s.pc[t := Crit(m)]
  {
  }

  lemma CopySelf(s: State, t: nat)
    requires Inv(s) && CanAdvance(s, t) && s.pc[t].XCopy?
    ensures Local(Advance(s, t), t)
  {
    HeadPlace(s, t);
    hide Inv, Place;
  }

  /** Who still has to link itself stands further behind. */
  lemma CopyLater(s: State, t: nat, u: nat)
    requires Inv(s) && CanAdvance(s, t) && s.pc[t].XCopy? && u < |s.pc| && u != t && PredStep(s.pc[u])
    ensures Local(s, u) && s.head < s.nodes[s.pc[u].n].ticket
    ensures s.pc[u].ALink? ==> s.head + 1 < s.nodes[s.pc[u].n].ticket && s.pc[u].pred != s.pc[t].m
  {
    HeadPlace(s, t);
    LocalOf(s, u);
    var p, i := s.pc[t], s.nodes[s.pc[u].n].ticket;
    CopyHead(p.n, s.nodes[p.n], p.m, s.nodes[p.m], p, BehindOf(s, s.head), s.granter.Some?);
    if s.pc[u].ALink? { PredecessorPlace(s, u, i); }
    hide Inv, PlaceOk, Notified;
  }

  lemma CopyNotified(s: State, t: nat, u: nat)
    requires Inv(s) && CanAdvance(s, t) && s.pc[t].XCopy? && u < |s.pc| && u != t && PredStep(s.pc[u])
    ensures InBounds(|s.nodes|, s.pc[u]) && Notified(Advance(s, t), s.pc[u])
    ensures s.pc[u].ALink? ==> s.head + 1 < s.nodes[s.pc[u].n].ticket
  {
    hide Inv, Advance;
    HeadPlace(s, t);
    LocalOf(s, t);
    LocalOf(s, u);
    CopyLater(s, t, u);
    CopyEffect(s, t);
    hide PlaceOk, Place, CanAdvance;
    var p, q := s.pc[t], s.pc[u];
    if q.pred == p.m {
      assert Renotifies(s, q);
    } else if q.pred == p.n {
      assert PredOk(s.nodes[q.pred], q, OwnerPc(s, q.pred));
    }
  }

  lemma CopyOther(s: State, s': State, t: nat, u: nat)
    requires t < |s.pc| && u < |s.pc| && u != t && Local(s, u) && !Releasing(s.pc[u]) && !s.pc[u].RSignal?
    requires s.pc[t].XCopy? && s.pc[t].n < |s.nodes| && s.pc[t].m < |s.nodes| && s.nodes[s.pc[t].n].owner == t
    requires FreshOk(s.nodes[s.pc[t].m], s.pc[t], t, s.head + 1 < |s.order|)
    requires s.head < |s.order| && s.order[s.head] == s.pc[t].n
    requires s'.order == s.order[s.head := s.pc[t].m] && s'.head == s.head && s'.granter == s.granter
    requires |s'.nodes| == |s.nodes| && |s'.pc| == |s.pc| && s'.pc == s.pc[t := s'.pc[t]]
    requires s'.nodes == s.nodes[s.pc[t].n := s'.nodes[s.pc[t].n]][s.pc[t].m := s'.nodes[s.pc[t].m]]
    requires PredStep(s.pc[u]) ==> InBounds(|s.nodes|, s.pc[u]) && Notified(s', s.pc[u])
    requires s.pc[u].ALink? ==> InBounds(|s.nodes|, s.pc[u]) && s.head + 1 < s.nodes[s.pc[u].n].ticket
    ensures Local(s', u)
  {
    hide Notified, WakeOk;
  }

  lemma CallKeepsHead(a: Id, x: Node, m: Id, next: Behind, g: bool)
    requires PlaceOk(true, a, x, Crit(a), next, g)
    ensures PlaceOk(true, a, x, XCas(a, m), next, g)
  {
  }

  lemma NewCallPlace(s: State, t: nat, p: PC, i: int)
    requires Inv(s) && t < |s.pc| && Call(s.pc[t], p, |s.nodes|) && s.head <= i < |s.order|
    ensures Place(NewCall(s, t, p), i)
  {
    OwnPlaceOf(s, t, i);
    if s.pc[t].Crit? {
      HeadPlace(s, t);
      CallKeepsHead(s.pc[t].n, s.nodes[s.pc[t].n], |s.nodes|, BehindOf(s, s.head), s.granter.Some?);
    }
    hide Inv, PlaceOk;
  }

  lemma NewCallInv(s: State, t: nat, p: PC)
    requires Inv(s) && t < |s.pc| && Call(s.pc[t], p, |s.nodes|)
    ensures Inv(NewCall(s, t, p))
  {
    var s' := NewCall(s, t, p);
    assert s'.head == s.head && s'.order == s.order && s'.tail == s.tail && s'.granter == s.granter;
    forall i | s.head <= i < |s.order| ensures Place(s', i) {
      NewCallPlace(s, t, p, i);
    }
    forall u: nat | u < |s.pc| ensures Local(s', u) {
      NewCallLocal(s, t, p, u);
    }
    hide Place, Local, NewCall;
  }

  lemma NewCallLocal(s: State, t: nat, p: PC, u: nat)
    requires Inv(s) && t < |s.pc| && Call(s.pc[t], p, |s.nodes|) && u < |s.pc|
    ensures Local(NewCall(s, t, p), u)
  {
    var s' := NewCall(s, t, p);
    if u == t {
      NewCallSelf(s, t, p);
    } else {
      hide Inv, Local, Notified, WakeOk, FreshOk;
      LocalOf(s, u);
      if PredStep(s.pc[u]) { NotifiedKept(s, s', s.pc[u]); }
      if s.pc[u].RSignal? { WakeApartOwner(s, t, s.pc[u].succ); WakeApart(s, s', s.pc[u].succ); }
      OtherLocal(s, s', u);
    }
  }

  lemma NewCallSelf(s: State, t: nat, p: PC)
    requires Inv(s) && t < |s.pc| && Call(s.pc[t], p, |s.nodes|)
    ensures Local(NewCall(s, t, p), t)
  {
    LocalOf(s, t);
    hide Inv, Place;
  }

  lemma WakeApartOwner(s: State, t: nat, x: Id)
    requires x < |s.nodes| && WakeOk(s.nodes[x], x, s.head, s.order, s.pc) && t < |s.pc| && !s.pc[t].ABlock?
    ensures s.nodes[x].owner < |s.pc| && s.nodes[x].owner != t
  {
  }

  /** The node that stands at a place is in use by its owner. */
  lemma PlaceUsed(s: State, p: PC, i: int, n: Id)
    requires Inv(s) && Reusable(s, p, n) && s.head <= i < |s.order|
    ensures Place(s, i) && s.order[i] != n && (i + 1 < |s.order| ==> s.order[i + 1] != n)
  {
    assert Place(s, i) && (i + 1 < |s.order| ==> Place(s, i + 1));
  }

  /** A place is not touched by what happens to other nodes and threads. */
  lemma SamePlace(s: State, s': State, i: int)
    requires s.head <= i < |s.order| && Place(s, i)
    requires s'.head == s.head && s'.order == s.order && s'.granter == s.granter
    requires |s'.nodes| == |s.nodes| && |s'.pc| == |s.pc|
    requires forall k :: k == i || (k == i + 1 && k < |s.order|) ==>
      var a := s.order[k];
      s'.nodes[a] == s.nodes[a] && s'.pc[s.nodes[a].owner] == s.pc[s.nodes[a].owner]
    ensures Place(s', i)
  {
    assert InPlace(s', i) && (i + 1 < |s.order| ==> InPlace(s', i + 1));
    hide PlaceOk;
  }

  lemma RecyclePlace(s: State, t: nat, p: PC, n: Id, i: int)
    requires Inv(s) && t < |s.pc| && n < |s.nodes| && Reusable(s, p, n) && Call(s.pc[t], p, n)
    requires s.head <= i < |s.order|
    ensures Place(Recycle(s, t, p, n), i)
  {
    hide Inv, PlaceOk, Reusable, Local;
    OwnPlaceOf(s, t, i);
    if s.nodes[s.order[i]].owner == t {
      PlaceUsed(s, p, i, n);
      HeadPlace(s, t);
      CallKeepsHead(s.pc[t].n, s.nodes[s.pc[t].n], n, BehindOf(s, s.head), s.granter.Some?);
    } else {
      RecycleElsewhere(s, t, p, n, i);
    }
  }

  lemma RecycleElsewhere(s: State, t: nat, p: PC, n: Id, i: int)
    requires Inv(s) && t < |s.pc| && n < |s.nodes| && Reusable(s, p, n) && Call(s.pc[t], p, n)
    requires s.head <= i < |s.order|
    requires s.order[i] < |s.nodes| && s.nodes[s.order[i]].owner != t
    ensures Place(Recycle(s, t, p, n), i)
  {
    hide Inv, PlaceOk, Reusable, Local;
    PlaceUsed(s, p, i, n);
    OwnPlaceOf(s, t, i);
    if s.pc[t].Crit? { HeadPlace(s, t); }
    SamePlace(s, Recycle(s, t, p, n), i);
  }

  lemma RecycleSelf(s: State, t: nat, p: PC, n: Id)
    requires Inv(s) && t < |s.pc| && n < |s.nodes| && Reusable(s, p, n) && Call(s.pc[t], p, n)
    ensures Local(Recycle(s, t, p, n), t)
  {
    assert Local(s, t) && !Brought(s.pc[t], n);
    hide Inv, Place, PredOk, WakeOk, Follows, Reusable;
  }

  lemma RecycleOther(s: State, t: nat, p: PC, n: Id, u: nat)
    requires Inv(s) && t < |s.pc| && n < |s.nodes| && Reusable(s, p, n) && Call(s.pc[t], p, n) && u < |s.pc| && u != t
    ensures Local(Recycle(s, t, p, n), u)
  {
    hide Place, Notified, OwnOk, FreshOk;
    assert Local(s, u) && !Brought(s.pc[u], n);
    if PredStep(s.pc[u]) { RecycleNotified(s, t, p, n, u); }
    if s.pc[u].RSignal? {
      assert !Brought(s.pc[s.nodes[s.pc[u].succ].owner], n);
      assert s.nodes[s.pc[u].succ].owner != t;
    }
    hide Inv, Reusable, Call;
    StrangerLocal(s, Recycle(s, t, p, n), u, n);
  }

  /** What holds for a thread does not depend on nodes that no call of its brings. */
  lemma StrangerLocal(s: State, s': State, u: nat, n: Id)
    requires u < |s.pc| && u < |s'.pc| && s'.pc[u] == s.pc[u] && Local(s, u) && !Brought(s.pc[u], n)
    requires n < |s.nodes| == |s'.nodes| && s'.nodes == s.nodes[n := s'.nodes[n]]
    requires s'.head == s.head && s'.order == s.order && s'.granter == s.granter
    requires PredStep(s.pc[u]) ==> Notified(s', s.pc[u])
    requires s.pc[u].RSignal? ==> WakeOk(s'.nodes[s.pc[u].succ], s.pc[u].succ, s.head, s.order, s'.pc)
    ensures Local(s', u)
  {
    hide Notified, WakeOk, OwnOk, FreshOk;
  }

  /** Who notifies a node that has left, and is now brought back by a transfer, is
  the next behind the holder. */
  lemma RecycleNotified(s: State, t: nat, p: PC, n: Id, u: nat)
    requires Inv(s) && t < |s.pc| && n < |s.nodes| && Reusable(s, p, n) && Call(s.pc[t], p, n) && u < |s.pc| && u != t
    requires PredStep(s.pc[u])
    ensures InBounds(|s.nodes|, s.pc[u]) && Notified(Recycle(s, t, p, n), s.pc[u])
  {
    assert Local(s, u) && !Brought(s.pc[u], n);
    if s.pc[u].pred == n {
      NotBehind(s, p, n, u);
      HeadPlace(s, t);
      NotifiesLeft(s, p, n, u);
    }
    hide Inv, Place, Reusable;
  }

  lemma NotBehind(s: State, p: PC, n: Id, u: nat)
    requires Inv(s) && Reusable(s, p, n) && u < |s.pc| && PredStep(s.pc[u]) && s.pc[u].pred == n
    ensures s.pc[u].ASet? && p.XCas? && Local(s, u) && InBounds(|s.nodes|, s.pc[u])
    ensures PredOk(s.nodes[n], s.pc[u], OwnerPc(s, n)) && s.nodes[n].nextFlag == Zero
    ensures Follows(s.nodes[s.pc[u].n], s.nodes[n], n, s.order, s.head)
  {
    assert Local(s, u);
    if s.pc[u].ALink? { LinkedBrought(s, u); }
    hide Inv, Place, OwnOk;
  }

  /** A linking thread has its predecessor in front of it. */
  lemma LinkedBrought(s: State, u: nat)
    requires Inv(s) && u < |s.pc| && s.pc[u].ALink?
    ensures exists v: nat :: v < |s.pc| && Brought(s.pc[v], s.pc[u].pred)
  {
    assert Local(s, u);
    PredecessorPlace(s, u, s.nodes[s.pc[u].n].ticket);
    OwnerBrought(s, s.nodes[s.pc[u].n].ticket - 1);
  }

  lemma NotifiesLeft(s: State, p: PC, n: Id, u: nat)
    requires Inv(s) && Reusable(s, p, n) && u < |s.pc| && s.pc[u].ASet? && s.pc[u].pred == n && Local(s, u)
    requires Follows(s.nodes[s.pc[u].n], s.nodes[n], n, s.order, s.head)
    ensures s.nodes[s.pc[u].n].ticket <= s.head + 1
  {
    var k := s.nodes[s.pc[u].n].ticket;
    if s.head <= k - 1 {
      assert Place(s, k - 1);
      OwnerBrought(s, k - 1);
    }
    hide PlaceOk;
  }

  lemma OwnerBrought(s: State, i: int)
    requires 0 <= i < |s.order| && Place(s, i)
    ensures s.nodes[s.order[i]].owner < |s.pc| && Brought(s.pc[s.nodes[s.order[i]].owner], s.order[i])
  {
  }

  lemma RecycleInv(s: State, t: nat, p: PC, n: Id)
    requires Inv(s) && t < |s.pc| && n < |s.nodes| && Reusable(s, p, n) && Call(s.pc[t], p, n)
    ensures Inv(Recycle(s, t, p, n))
  {
    var s' := Recycle(s, t, p, n);
    hide Place, Local, Reusable, Call;
    forall i | s.head <= i < |s.order| ensures Place(s', i) { RecyclePlace(s, t, p, n, i); }
    forall u: nat | u < |s.pc| ensures Local(s', u) {
      if u == t { RecycleSelf(s, t, p, n); } else { RecycleOther(s, t, p, n, u); }
    }
  }

  lemma OtherOwner(a: Id, x: Node, p: PC, u: nat, next: Behind, granting: bool)
    requires PlaceOk(true, a, x, p, next, granting)
    ensures PlaceOk(true, a, x.(owner := u), p, next, granting)
  {
  }

  lemma HandOffInv(s: State, t: nat, u: nat)
    requires Inv(s) && t < |s.pc| && u < |s.pc| && s.pc[t].Crit? && s.pc[t].n < |s.nodes| && s.pc[u] == Idle
    ensures Inv(HandOff(s, t, u))
  {
    var s' := HandOff(s, t, u);
    HeadPlace(s, t);
    hide PlaceOk, Local;
    forall i | s.head <= i < |s.order| ensures Place(s', i) {
      OwnPlaceOf(s, t, i);
      OwnPlaceOf(s, u, i);
      if i == s.head { OtherOwner(s.order[i], s.nodes[s.order[i]], s.pc[t], u, BehindOf(s, i), s.granter.Some?); }
    }
    forall v: nat | v < |s.pc| ensures Local(s', v) { HandOffLocal(s, t, u, v); }
  }

  lemma HandOffLocal(s: State, t: nat, u: nat, v: nat)
    requires Inv(s) && t < |s.pc| && u < |s.pc| && s.pc[t].Crit? && s.pc[t].n < |s.nodes| && s.pc[u] == Idle
    requires v < |s.pc|
    ensures Local(HandOff(s, t, u), v)
  {
    HeadPlace(s, t);
    LocalOf(s, v);
    if v == t || v == u {
      hide Inv, Place, Notified, WakeOk, FreshOk;
    } else {
      hide Inv, Place, Local, Notified, OwnOk;
      if PredStep(s.pc[v]) { HandOffNotified(s, t, u, v); }
      HandOffOther(s, HandOff(s, t, u), t, u, v);
    }
  }

  lemma HandOffNotified(s: State, t: nat, u: nat, v: nat)
    requires Inv(s) && t < |s.pc| && u < |s.pc| && s.pc[t].Crit? && s.pc[t].n < |s.nodes| && s.pc[u] == Idle
    requires v < |s.pc| && v != t && v != u && PredStep(s.pc[v])
    ensures InBounds(|s.nodes|, s.pc[v]) && Notified(HandOff(s, t, u), s.pc[v])
  {
    LocalOf(s, v);
    HeadPlace(s, t);
    hide Inv, Local, Place;
  }

  lemma HandOffOther(s: State, s': State, t: nat, u: nat, v: nat)
    requires t < |s.pc| && u < |s.pc| && v < |s.pc| && v != t && v != u && Local(s, v) && s.pc[t].Crit?
    requires s.pc[t].n < |s.nodes| && s.nodes[s.pc[t].n].owner == t && !s.pc[v].RSignal?
    requires s.nodes[s.pc[t].n].ticket >= 0 && s' == HandOff(s, t, u)
    requires PredStep(s.pc[v]) ==> InBounds(|s.nodes|, s.pc[v]) && Notified(s', s.pc[v])
    ensures Local(s', v)
  {
    hide Notified, WakeOk;
  }

  lemma AdvancePlace(s: State, t: nat, i: int)
    requires Inv(s) && CanAdvance(s, t) && Advance(s, t).head <= i < |Advance(s, t).order|
    ensures Place(Advance(s, t), i)
  {
    hide Inv, Place;
    var p := s.pc[t];
    if OwnStep(p) { OwnStepPlace(s, t, i); }
    else if PredStep(p) { PredStepPlace(s, t, i); }
    else if p.AXchg? || p.TTry? { EnqueuePlace(s, t, i); }
    else if p.RCas? || p.XCas? { HeadPlace(s, t); CasPlace(s, t, i); }
    else if p.RGrant? { GrantPlace(s, t, i); }
    else if p.RSignal? { SignalPlace(s, t, i); }
    else { HeadPlace(s, t); CopyPlace(s, t, i); }
  }

  lemma AdvanceLocal(s: State, t: nat, u: nat)
    requires Inv(s) && CanAdvance(s, t) && u < |s.pc|
    ensures Local(Advance(s, t), u)
  {
    hide Inv, Local, Advance, StepOwn, StepPred;
    var p := s.pc[t];
    if OwnStep(p) { if u == t { OwnStepSelf(s, t); } else { OwnStepOther(s, t, u); } }
    else if PredStep(p) { if u == t { PredStepSelf(s, t); } else { PredStepOther(s, t, u); } }
    else if p.AXchg? || p.TTry? { if u == t { EnqueueSelf(s, t); } else { EnqueueOther(s, t, u); } }
    else if p.RCas? || p.XCas? { if u == t { CasSelf(s, t); } else { CasOther(s, t, u); } }
    else if p.RGrant? { if u == t { GrantSelf(s, t); } else { GrantOther(s, t, u); } }
    else if p.RSignal? { SignalLocal(s, t, u); }
    else { CopyLocal(s, t, u); }
  }

  /** The lock pointer and the counters around the queue. */
  ghost predicate Frame(s: State) {
    && s.head <= |s.order|
    && s.tail == (if s.head == |s.order| then None else Some(s.order[|s.order| - 1]))
    && (s.granter.Some? ==> s.granter.value < |s.pc|)
  }

  lemma CopyBehind(s: State, t: nat)
    requires Inv(s) && t < |s.pc| && s.pc[t].XCopy?
    ensures s.head + 1 < |s.order| && s.tail == Some(s.order[|s.order| - 1])
  {
    HeadPlace(s, t);
  }

  lemma AdvanceFrame(s: State, t: nat)
    requires Inv(s) && CanAdvance(s, t)
    ensures Frame(Advance(s, t))
  {
    assert Frame(s);
    if Releasing(s.pc[t]) {
      HeadPlace(s, t);
      if s.pc[t].RGrant? { GrantTarget(s, t); }
      if s.pc[t].XCopy? { CopyBehind(s, t); }
    }
    hide Inv, PlaceOk, Local;
  }

  lemma AdvanceInv(s: State, t: nat)
    requires Inv(s) && CanAdvance(s, t)
    ensures Inv(Advance(s, t))
  {
    var s' := Advance(s, t);
    AdvanceFrame(s, t);
    forall i | s'.head <= i < |s'.order| ensures Place(s', i) { AdvancePlace(s, t, i); }
    forall u: nat | u < |s'.pc| ensures Local(s', u) { AdvanceLocal(s, t, u); }
    hide Local, Place;
  }

  lemma BeginInv(s: State, s': State)
    requires Inv(s) && Begin(s, s')
    ensures Inv(s')
  {
    hide Inv, Call, NewCall, Recycle, Reusable, HandOff;
    if exists t: nat, p: PC, n: Id :: Recycles(s, s', t, p, n) {
      var t: nat, p: PC, n: Id :| Recycles(s, s', t, p, n);
      RecycleInv(s, t, p, n);
    } else if exists t: nat, p: PC :: t < |s.pc| && Call(s.pc[t], p, |s.nodes|) && s' == NewCall(s, t, p) {
      var t: nat, p: PC :| t < |s.pc| && Call(s.pc[t], p, |s.nodes|) && s' == NewCall(s, t, p);
      NewCallInv(s, t, p);
    } else {
      var t: nat, u: nat :| t < |s.pc| && u < |s.pc| && s.pc[t].Crit? && s.pc[t].n < |s.nodes| && s.pc[u] == Idle
                            && s' == HandOff(s, t, u);
      HandOffInv(s, t, u);
    }
  }

  lemma NextInv()
    ensures Preserves(Inv, Next)
  {
    hide Inv, Advance, CanAdvance, Begin;
    forall s, s' | Inv(s) && Next(s, s') ensures Inv(s') {
      if Continue(s, s') {
        var t: nat :| t < |s.pc| && CanAdvance(s, t) && s' == Advance(s, t);
        AdvanceInv(s, t);
      } else {
        BeginInv(s, s');
      }
    }
  }

  ghost predicate Reached(s: State) {
    Reachable(Init, Next, s)
  }

  lemma ReachedInv(s: State)
    requires Reached(s)
    ensures Inv(s)
  {
    NextInv();
    forall s0 | Init(s0) ensures Inv(s0) { InitInv(s0); }
    ReachableInvariant(Init, Inv, Next, s);
  }

  // ---------------------------------------------------------- theorems

  /** At most one thread holds the lock or is giving it up, its node is the head
  of the queue, and the lock pointer names the last node or is null. */
  lemma MutualExclusion(s: State)
    requires Reached(s)
    ensures forall t, u | 0 <= t < u < |s.pc| :: !(Releasing(s.pc[t]) && Releasing(s.pc[u]))
    ensures forall t | 0 <= t < |s.pc| && Releasing(s.pc[t]) :: Queue(s) != [] && Queue(s)[0] == s.pc[t].n
    ensures s.tail == (if Queue(s) == [] then None else Some(Queue(s)[|Queue(s)| - 1]))
    ensures forall i, j | 0 <= i < j < |Queue(s)| :: Queue(s)[i] != Queue(s)[j]
  {
    ReachedInv(s);
    FrameOf(s);
    hide PlaceOk, Inv, Local;
    forall t, u | 0 <= t < u < |s.pc| ensures !(Releasing(s.pc[t]) && Releasing(s.pc[u])) {
      if Releasing(s.pc[t]) { HeadPlace(s, t); }
    }
    forall t | 0 <= t < |s.pc| && Releasing(s.pc[t]) ensures Queue(s) != [] && Queue(s)[0] == s.pc[t].n {
      HeadPlace(s, t);
    }
    QueueDistinct(s);
  }

  lemma QueueDistinct(s: State)
    requires Inv(s)
    ensures forall i, j | 0 <= i < j < |Queue(s)| :: Queue(s)[i] != Queue(s)[j]
  {
    hide PlaceOk, Local;
    forall i, j | 0 <= i < j < |Queue(s)| ensures Queue(s)[i] != Queue(s)[j] {
      assert Place(s, s.head + i) && Place(s, s.head + j);
    }
  }

  /** What one step does to the abstract queue. */
  function QueueAfter(q: seq<Id>, p: PC): seq<Id> {
    match p
    case AXchg(n) => q + [n]
    case TTry(n) => if q == [] then [n] else q
    case RCas(n) => if q == [n] then [] else q
    case RGrant(n, x) => if q == [] then [] else q[1..]
    case XCas(n, m) => if q == [n] then [m] else q
    case XCopy(n, m) => if q == [] then [] else [m] + q[1..]
    case _ => q
  }

  lemma QueueSlices(order: seq<Id>, h: nat, n: Id)
    requires h <= |order|
    ensures (order + [n])[h..] == order[h..] + [n]
    ensures h < |order| ==> order[h + 1..] == order[h..][1..] && order[h := n][h..] == [n] + order[h..][1..]
    ensures h == |order| ==> order[h..] == []
    ensures h + 1 == |order| ==> order[h..] == [order[h]]
  {
    if h < |order| {
      assert order[h := n][h..][0] == n && order[h := n][h..][1..] == order[h + 1..];
    }
  }

  /** Steps that exchange the lock pointer on entry. */
  lemma RefinesEntry(s: State, t: nat)
    requires Frame(s) && CanAdvance(s, t) && (s.pc[t].AXchg? || s.pc[t].TTry?)
    ensures Queue(Advance(s, t)) == QueueAfter(Queue(s), s.pc[t])
    ensures s.pc[t].TTry? ==> (Advance(s, t).pc[t] == if Queue(s) == [] then Crit(s.pc[t].n) else Idle)
  {
    hide Frame, Advance;
    EntryEffect(s, t);
    QueueSlices(s.order, s.head, s.pc[t].n);
  }

  lemma EntryEffect(s: State, t: nat)
    requires Frame(s) && CanAdvance(s, t) && (s.pc[t].AXchg? || s.pc[t].TTry?)
    ensures s.head <= |s.order| && (s.tail == None <==> s.head == |s.order|)
    ensures var s' := Advance(s, t);
            && s'.head == s.head && t < |s'.pc|
            && s'.order == (if s.pc[t].AXchg? || s.tail == None then s.order + [s.pc[t].n] else s.order)
            && (s.pc[t].TTry? ==> s'.pc[t] == if s.tail == None then Crit(s.pc[t].n) else Idle)
  {
  }

  /** Steps of the holder that move the head of the queue. */
  lemma RefinesExit(s: State, t: nat)
    requires Inv(s) && CanAdvance(s, t) && (s.pc[t].RCas? || s.pc[t].RGrant? || s.pc[t].XCas? || s.pc[t].XCopy?)
    ensures Queue(Advance(s, t)) == QueueAfter(Queue(s), s.pc[t])
    ensures Queue(s) != [] && Queue(s)[0] == s.pc[t].n
  {
    hide Inv, Local, Place, InBounds, Advance, Replace, QueueAfter;
    HeadPlace(s, t);
    hide CanAdvance;
    ExitEffect(s, t);
    ExitSlices(s.order, s.head, s.pc[t]);
  }

  lemma ExitSlices(order: seq<Id>, h: nat, p: PC)
    requires h < |order| && (p.RCas? || p.RGrant? || p.XCas? || p.XCopy?) && order[h] == p.n
    ensures order[h..] != [] && order[h..][0] == p.n
    ensures var last := h + 1 == |order|;
            var h' := if p.RGrant? || (p.RCas? && last) then h + 1 else h;
            var order' := if p.XCopy? || (p.XCas? && last) then order[h := p.m] else order;
            order'[h'..] == QueueAfter(order[h..], p)
  {
    QueueSlices(order, h, if p.XCas? || p.XCopy? then p.m else 0);
  }

  lemma ExitEffect(s: State, t: nat)
    requires CanAdvance(s, t) && s.head < |s.order|
    requires s.pc[t].RCas? || s.pc[t].RGrant? || s.pc[t].XCas? || s.pc[t].XCopy?
    ensures var (p, last, s') := (s.pc[t], s.tail == Some(s.pc[t].n), Advance(s, t));
            && s'.head == (if p.RGrant? || (p.RCas? && last) then s.head + 1 else s.head)
            && s'.order == (if p.XCopy? || (p.XCas? && last) then s.order[s.head := p.m] else s.order)
  {
  }

  /** The lock is a first-in first-out queue: an exchange appends, a successful
  try-acquire starts an empty queue, a release removes the releaser's own node
  from the head, a transfer replaces it there and keeps everyone behind it, and
  no other step changes the queue. */
  lemma RefinesFifo(s: State, t: nat)
    requires Reached(s) && CanAdvance(s, t)
    ensures Queue(Advance(s, t)) == QueueAfter(Queue(s), s.pc[t])
    ensures s.pc[t].RCas? || s.pc[t].RGrant? || s.pc[t].XCas? || s.pc[t].XCopy? ==>
      Queue(s) != [] && Queue(s)[0] == s.pc[t].n
    ensures s.pc[t].TTry? ==> (Advance(s, t).pc[t] == if Queue(s) == [] then Crit(s.pc[t].n) else Idle)
  {
    ReachedInv(s);
    FrameOf(s);
    hide Reached, Inv, Advance;
    if OwnStep(s.pc[t]) || PredStep(s.pc[t]) {
      OrderKept(s, t);
    } else if s.pc[t].AXchg? || s.pc[t].TTry? {
      RefinesEntry(s, t);
    } else if !s.pc[t].RSignal? {
      RefinesExit(s, t);
    } else {
      OrderKept(s, t);
    }
  }

  lemma OrderKept(s: State, t: nat)
    requires CanAdvance(s, t) && (OwnStep(s.pc[t]) || PredStep(s.pc[t]) || s.pc[t].RSignal?)
    ensures Advance(s, t).order == s.order && Advance(s, t).head == s.head
  {
  }

  lemma FrameOf(s: State)
    requires Reached(s)
    ensures Frame(s)
  {
    ReachedInv(s);
  }

  /** Calls and hand-overs leave the queue alone. */
  lemma CallsKeepQueue(s: State, s': State)
    requires Begin(s, s')
    ensures Queue(s') == Queue(s)
  {
  }

  /** Grants follow the order of the exchanges: whoever enters does so as the
  head, and a releaser passes the lock to the node right behind its own. */
  lemma GrantsInOrder(s: State, t: nat)
    requires Reached(s) && CanAdvance(s, t)
    ensures Advance(s, t).pc[t].Crit? ==> Queue(Advance(s, t)) != [] && Queue(Advance(s, t))[0] == Advance(s, t).pc[t].n
    ensures s.pc[t].RGrant? ==> |Queue(s)| > 1 && s.pc[t].succ == Queue(s)[1]
  {
    ReachedInv(s);
    if s.pc[t].RGrant? { GrantTarget(s, t); }
    AdvanceInv(s, t);
    if Advance(s, t).pc[t].Crit? { HeadPlace(Advance(s, t), t); }
  }

  /** Each flag is set once: a setter finds 0 or an event that is not yet set,
  never -1, and a releaser never finds a null next pointer. */
  lemma FlagsSetOnce(s: State, t: nat)
    requires Reached(s) && t < |s.pc|
    ensures InBounds(|s.nodes|, s.pc[t])
    ensures s.pc[t].ASet? ==> s.nodes[s.pc[t].pred].nextFlag in {Zero, Event(false)}
    ensures s.pc[t].RGrant? ==> s.nodes[s.pc[t].succ].ready in {Zero, Event(false)}
    ensures s.pc[t].ASignal? ==> s.nodes[s.pc[t].pred].nextFlag == Event(false)
    ensures s.pc[t].RSignal? ==> s.nodes[s.pc[t].succ].ready == Event(false)
    ensures !s.pc[t].RNull?
  {
    ReachedInv(s);
    assert Local(s, t);
    if s.pc[t].RGrant? { GrantTarget(s, t); }
  }

  // ------------------------------------------------ every caller gets its turn

  predicate Trying(p: PC) { p.AXchg? || Acquiring(p) }

  lemma TryingAdvance(s: State, t: nat, u: nat)
    requires CanAdvance(s, u) && t < |s.pc| && Trying(s.pc[t])
    ensures t < |Advance(s, u).pc| && (Trying(Advance(s, u).pc[t]) || Advance(s, u).pc[t].Crit?)
  {
  }

  lemma TryingBegin(s: State, s': State, t: nat)
    requires Begin(s, s') && t < |s.pc| && Trying(s.pc[t])
    ensures t < |s'.pc| && s'.pc[t] == s.pc[t]
  {
    hide Reusable;
  }

  lemma TryingStep(s: State, s': State, t: nat)
    requires Next(s, s') && t < |s.pc| && Trying(s.pc[t])
    ensures t < |s'.pc| && (Trying(s'.pc[t]) || s'.pc[t].Crit?)
  {
    hide Begin, Advance, CanAdvance;
    if Continue(s, s') {
      var u: nat :| u < |s.pc| && CanAdvance(s, u) && s' == Advance(s, u);
      TryingAdvance(s, t, u);
    } else {
      TryingBegin(s, s', t);
    }
  }

  /** An acquire never returns without the lock: on every run from its first step
  to a state where the thread is idle again, it holds the lock in between. */
  lemma AcquireHolds(run: seq<State>, t: nat)
    requires Path(Next, run) && t < |run[0].pc| && Trying(run[0].pc[t])
    requires t < |run[|run| - 1].pc| && run[|run| - 1].pc[t] == Idle
    ensures exists i :: 0 <= i < |run| && t < |run[i].pc| && run[i].pc[t].Crit?
  {
    hide Next;
    var inside, gate := (s: State) => t < |s.pc| && Trying(s.pc[t]), (s: State) => t < |s.pc| && s.pc[t].Crit?;
    forall s, s' | Next(s, s') && inside(s) ensures inside(s') || gate(s') { TryingStep(s, s', t); }
    LeavesThrough(Next, inside, gate, run);
  }

  /** An idle thread may acquire or try to with a new node, or with one whose calls are
  over and that nobody is notifying; the holder may transfer, even to one that is
  still being notified, or hand the lock on. */
  lemma EveryCallOpen(s: State, t: nat, p: PC, n: Id)
    requires t < |s.pc| && n <= |s.nodes|
    requires if s.pc[t].Crit? then p == XCas(s.pc[t].n, n) else s.pc[t] == Idle && p in {AXchg(n), TTry(n)}
    requires n < |s.nodes| ==> forall u: nat :: u < |s.pc| ==>
               !Brought(s.pc[u], n) && (s.pc[t].Crit? || !Notifies(s.pc[u], n))
    ensures Next(s, if n == |s.nodes| then NewCall(s, t, p) else Recycle(s, t, p, n))
    ensures forall u: nat :: s.pc[t].Crit? && s.pc[t].n < |s.nodes| && u < |s.pc| && s.pc[u] == Idle ==>
              Next(s, HandOff(s, t, u))
  {
    assert Call(s.pc[t], p, n);
    assert n < |s.nodes| ==> Recycles(s, Recycle(s, t, p, n), t, p, n);
  }

  // ---------------------------------------------------------- progress

  function Rank(p: PC): int {
    match p
    case Idle => 0
    case RNull => 0
    case RSignal(_) => 3
    case RGrant(_, _) => 4
    case RReload(_) => 5
    case RBlock(_) => 6
    case RStore(_) => 7
    case RWait(_) => 8
    case RCas(_) => 9
    case RNext(_) => 10
    case Crit(_) => 11
    case XCopy(_, _) => 12
    case XSpin(_, _) => 13
    case XCas(_, _) => 14
    case ABlock(_) => 14
    case AStore(_) => 15
    case AWait(_) => 16
    case ASignal(_, _) => 17
    case ASet(_, _) => 18
    case ALink(_, _) => 19
    case AXchg(_) => 20
    case TTry(_) => 12
  }

  ghost function Measure(s: State): int {
    Sum(s.pc, Rank)
  }

  lemma AdvanceLowersRank(s: State, t: nat)
    requires CanAdvance(s, t)
    ensures var s' := Advance(s, t);
            |s'.pc| == |s.pc| && s'.pc == s.pc[t := s'.pc[t]] && Rank(s'.pc[t]) < Rank(s.pc[t])
  {
  }

  lemma ContinueLowersMeasure()
    ensures Preserves(Inv, Continue)
    ensures Lowers(Inv, Continue, Measure)
  {
    hide Sum, Inv, CanAdvance, Advance;
    forall s, s' | Inv(s) && Continue(s, s') ensures Inv(s') && 0 <= Measure(s') < Measure(s) {
      var t: nat :| t < |s.pc| && CanAdvance(s, t) && s' == Advance(s, t);
      AdvanceInv(s, t);
      AdvanceLowersRank(s, t);
      SumUpdate(s.pc, t, s'.pc[t], Rank);
      SumBounds(s'.pc, Rank);
    }
  }

  /** Nobody is inside, the queue is empty and the lock pointer is null. */
  ghost predicate AllOut(s: State) {
    Queue(s) == [] && s.tail == None && forall t: nat :: t < |s.pc| ==> s.pc[t] == Idle
  }

  /** A blocked head is about to be woken: by the thread that granted it the
  lock, or by the thread behind it. */
  lemma HeadMoves(front: bool, a: Id, x: Node, p: PC, next: Behind, granting: bool)
    requires PlaceOk(true, a, x, p, next, granting) && !granting
    requires next.Then? ==> next.q.ABlock?
    ensures OwnStep(p) ==> OwnReady(x, p)
  {
  }

  lemma QueueMoves(s: State)
    requires Inv(s)
    ensures s.head < |s.order| ==>
      exists t: nat :: t < |s.pc| && CanAdvance(s, t) && (Queued(s.pc[t]) || s.pc[t].RSignal?)
  {
    if s.head < |s.order| {
      assert Place(s, s.head);
      var a := s.order[s.head];
      var x := s.nodes[a];
      assert Local(s, x.owner);
      if s.granter.Some? {
        assert Local(s, s.granter.value);
        assert CanAdvance(s, s.granter.value);
      } else if s.head + 1 < |s.order| && !BehindOf(s, s.head).q.ABlock? {
        assert Place(s, s.head + 1);
        var u := s.nodes[s.order[s.head + 1]].owner;
        assert Local(s, u);
        assert CanAdvance(s, u);
      } else {
        HeadMoves(true, a, x, s.pc[x.owner], BehindOf(s, s.head), false);
        assert CanAdvance(s, x.owner);
      }
    }
  }

  lemma StuckThreads(s: State)
    requires Stuck(Continue, s)
    ensures forall t: nat :: t < |s.pc| ==> !CanAdvance(s, t)
  {
    hide Advance, CanAdvance;
    forall t: nat | t < |s.pc| ensures !CanAdvance(s, t) {
      assert t < |s.pc| && CanAdvance(s, t) ==> Continue(s, Advance(s, t));
    }
  }

  lemma StuckIsAllOut(s: State)
    requires Inv(s) && Stuck(Continue, s)
    ensures AllOut(s)
  {
    StuckThreads(s);
    QueueMoves(s);
    hide PlaceOk, OwnReady;
    forall t: nat | t < |s.pc| ensures s.pc[t] == Idle {
      assert Local(s, t) && !CanAdvance(s, t);
    }
  }

  /** No reachable state is stuck with somebody in the queue: if every holder
  releases, every notification arrives, every caller of acquire gets the lock in
  its turn, and the lock ends free. */
  lemma EveryCallerServed(s: State)
    requires Reached(s)
    ensures Settles(Continue, Measure, AllOut, s)
  {
    ReachedInv(s);
    ContinueLowersMeasure();
    SumBounds(s.pc, Rank);
    forall s0 | Inv(s0) && Stuck(Continue, s0) ensures AllOut(s0) { StuckIsAllOut(s0); }
    Settle(Inv, Continue, Measure, AllOut, s);
  }
}
