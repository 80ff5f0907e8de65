/** Which nodes of the queue lock of ptw32_MCS_lock.c may be used again as soon as
the calls that brought them are over, and what happens if others are. */
module NodeReuse {
  import opened McsLock
  import opened Threads

  ghost predicate Broken(s: State) {
    exists t: nat :: t < |s.pc| && s.pc[t] == RNull
  }

  /** Some run from here comes to a release that follows a null pointer. */
  ghost predicate MayBreak(s: State) {
    exists run :: Path(Next, run) && run[0] == s && Broken(run[|run| - 1])
  }

  /** The holder may at any time transfer the lock to a node that was released
  before, if nobody acquires with it: the target is not touched before it is the
  head, and who still notifies it stands right behind. */
  lemma HolderMayReuse(s: State, t: nat, n: Id)
    requires Reached(s) && t < |s.pc| && s.pc[t].Crit? && s.pc[t].n != n && n < |s.nodes|
    requires forall u: nat :: u < |s.pc| && Brought(s.pc[u], n) ==> Releasing(s.pc[u])
    ensures Reached(Recycle(s, t, XCas(s.pc[t].n, n), n)) && !MayBreak(Recycle(s, t, XCas(s.pc[t].n, n), n))
  {
    ReachedInv(s);
    HeadPlace(s, t);
    hide Inv, Place, MayBreak;
    var p := XCas(s.pc[t].n, n);
    assert Recycles(s, Recycle(s, t, p, n), t, p, n);
    OneMore(Init, Next, s, Recycle(s, t, p, n));
    ReachedInv(Recycle(s, t, p, n));
    NeverBreaks(Recycle(s, t, p, n));
  }

  // The run that breaks.  The late notification marks a node that is not queued
  // yet; nobody looks at the mark before its new owner releases the lock.

  function Marked(s: State, n: Id): State {
    if n < |s.nodes| then SetNode(s, n, s.nodes[n].(nextFlag := Set)) else s
  }

  lemma LateNotice(s: State, t: nat, p: PC, n: Id, u: nat)
    requires Inv(s) && t < |s.pc| && n < |s.nodes| && s.pc[t] == Idle && Call(Idle, p, n)
    requires forall v: nat :: v < |s.pc| ==> !Brought(s.pc[v], n)
    requires u < |s.pc| && Notifies(s.pc[u], n)
    ensures var r := Recycle(s, t, p, n);
            CanAdvance(r, u) && CanAdvance(s, u) && Advance(r, u) == Marked(Recycle(Advance(s, u), t, p, n), n)
    ensures Inv(Recycle(Advance(s, u), t, p, n))
  {
    NotBehind(s, XCas(n, n), n, u);
    var s' := Advance(s, u);
    AdvanceInv(s, u);
    forall v: nat | v < |s'.pc| ensures !Brought(s'.pc[v], n) && !Notifies(s'.pc[v], n) {
      if v != u && Notifies(s.pc[v], n) { NotBehind(s, XCas(n, n), n, v); }
    }
    RecycleInv(s', t, p, n);
    hide Inv, PredOk, Follows;
    assert Advance(Recycle(s, t, p, n), u).nodes == Marked(Recycle(s', t, p, n), n).nodes;
    assert Advance(Recycle(s, t, p, n), u).pc == Marked(Recycle(s', t, p, n), n).pc;
  }

  lemma MarkCommutes(s: State, n: Id, v: nat)
    requires n < |s.nodes| && CanAdvance(s, v) && !Uses(s.pc[v], n)
    ensures CanAdvance(Marked(s, n), v) && Advance(Marked(s, n), v) == Marked(Advance(s, v), n)
  {
    var m, p := Marked(s, n), s.pc[v];
    assert CanAdvance(m, v);
    if OwnStep(p) {
      OwnEffect(s, v);
      OwnEffect(m, v);
      hide Advance, CanAdvance, StepOwn, OwnStep;
      MarkApart(s.nodes, n, p.n, StepOwn(s.nodes[p.n], p).0);
    } else if PredStep(p) {
      PredEffect(s, v);
      PredEffect(m, v);
      hide Advance, CanAdvance, StepPred;
      MarkApart(s.nodes, n, p.pred, StepPred(s.nodes[p.pred], p).0);
    } else {
      MarkCommutesElse(s, n, v);
    }
  }

  lemma MarkApart(nodes: seq<Node>, n: Id, y: Id, x: Node)
    requires n < |nodes| && y < |nodes| && n != y
    ensures nodes[n := nodes[n].(nextFlag := Set)][y] == nodes[y] && nodes[y := x][n] == nodes[n]
    ensures nodes[n := nodes[n].(nextFlag := Set)][y := x] == nodes[y := x][n := nodes[n].(nextFlag := Set)]
  {
  }

  lemma MarkCommutesElse(s: State, n: Id, v: nat)
    requires n < |s.nodes| && CanAdvance(s, v) && !Uses(s.pc[v], n) && !OwnStep(s.pc[v]) && !PredStep(s.pc[v])
    ensures CanAdvance(Marked(s, n), v) && Advance(Marked(s, n), v) == Marked(Advance(s, v), n)
  {
    match s.pc[v] {
      case AXchg(a) => MarkApart(s.nodes, n, a, s.nodes[a].(ticket := |s.order|));
      case TTry(a) => MarkApart(s.nodes, n, a, s.nodes[a].(ticket := |s.order|));
      case RGrant(_, x) => MarkApart(s.nodes, n, x, s.nodes[x].(ready := Set));
      case RSignal(x) => MarkApart(s.nodes, n, x, s.nodes[x].(ready := Event(true)));
      case XCas(a, m) => MarkReplace(s, n, a, m, None);
      case XCopy(a, m) => MarkReplace(s, n, a, m, s.nodes[a].next);
      case _ =>
    }
  }

  lemma MarkReplace(s: State, n: Id, a: Id, m: Id, next: Option<Id>)
    requires n < |s.nodes| && a < |s.nodes| && m < |s.nodes| && n != a && n != m
    ensures Replace(Marked(s, n), a, m, next) == Marked(Replace(s, a, m, next), n)
  {
    var x := s.nodes[a].(ticket := -1, moved := true);
    MarkApart(s.nodes, n, a, x);
    MarkApart(s.nodes[a := x], n, m, s.nodes[a := x][m].(ticket := s.head, next := next));
    assert Replace(Marked(s, n), a, m, next).nodes == Marked(Replace(s, a, m, next), n).nodes;
  }

  /** A step of any thread but t. */
  ghost predicate ContinueBut(t: nat, s: State, s': State) {
    exists v: nat :: v != t && CanAdvance(s, v) && s' == Advance(s, v)
  }

  /** Everybody else is served while t has not yet exchanged its node. */
  lemma OthersOut(s: State, t: nat, n: Id)
    requires Inv(s) && t < |s.pc| && (s.pc[t] == AXchg(n) || s.pc[t] == TTry(n))
    requires forall v: nat :: v != t ==> !CanAdvance(s, v)
    ensures s.tail == None && s.head == |s.order| && forall v: nat :: v < |s.pc| && v != t ==> s.pc[v] == Idle
  {
    QueueMoves(s);
    hide PlaceOk, OwnReady;
    forall v: nat | v < |s.pc| && v != t ensures s.pc[v] == Idle {
      assert Local(s, v) && !CanAdvance(s, v);
    }
  }

  /** The other threads run until all are out; the marked run is a run as well. */
  lemma ServeOthers(s: State, t: nat, n: Id) returns (run: seq<State>)
    requires Inv(s) && t < |s.pc| && (s.pc[t] == AXchg(n) || s.pc[t] == TTry(n)) && n < |s.nodes|
    ensures Path(Next, run) && run[0] == Marked(s, n)
    ensures var c := run[|run| - 1];
            && c.tail == None && c.head == |c.order| && |c.pc| == |s.pc| && c.pc[t] == s.pc[t]
            && n < |c.nodes| && c.nodes[n] == FRESH.(owner := t, nextFlag := Set)
            && forall v: nat :: v < |c.pc| && v != t ==> c.pc[v] == Idle
  {
    hide Inv, CanAdvance, Advance, Marked, Uses, Sum;
    var inv := (c: State) => Inv(c) && |c.pc| == |s.pc| && c.pc[t] == s.pc[t];
    var next := (c, c') => ContinueBut(t, c, c');
    forall c, c' | inv(c) && next(c, c') ensures inv(c') && 0 <= Measure(c') < Measure(c) {
      OtherSteps(c, c', t, n);
    }
    var clean := ReachStuck(inv, next, Measure, s);
    InvariantAlongRun(inv, next, clean);
    run := seq(|clean|, i requires 0 <= i < |clean| => Marked(clean[i], n));
    forall i | 0 <= i < |run| - 1 ensures Next(run[i], run[i + 1]) {
      assert next(clean[i], clean[i + 1]);
      MarkedStep(clean[i], clean[i + 1], t, n);
    }
    MarkedEnd(clean[|clean| - 1], t, n);
  }

  lemma OtherSteps(c: State, c': State, t: nat, n: Id)
    requires Inv(c) && t < |c.pc| && ContinueBut(t, c, c')
    ensures Inv(c') && |c'.pc| == |c.pc| && c'.pc[t] == c.pc[t] && 0 <= Measure(c') < Measure(c)
  {
    hide Inv, CanAdvance, Advance, Sum;
    var v: nat :| v != t && CanAdvance(c, v) && c' == Advance(c, v);
    AdvanceInv(c, v);
    AdvanceLowersRank(c, v);
    CanMove(c, v);
    SumUpdate(c.pc, v, c'.pc[v], Rank);
    SumBounds(c'.pc, Rank);
  }

  lemma CanMove(s: State, t: nat)
    requires CanAdvance(s, t)
    ensures t < |s.pc|
  {
  }

  lemma MarkedStep(c: State, c': State, t: nat, n: Id)
    requires Inv(c) && t < |c.pc| && (c.pc[t] == AXchg(n) || c.pc[t] == TTry(n)) && ContinueBut(t, c, c')
    ensures Next(Marked(c, n), Marked(c', n))
  {
    hide Inv, CanAdvance, Advance, Marked, Uses;
    var v: nat :| v != t && CanAdvance(c, v) && c' == Advance(c, v);
    CanMove(c, v);
    FreshUnused(c, t, n, v);
    MarkCommutes(c, n, v);
    CanMove(Marked(c, n), v);
    assert Continue(Marked(c, n), Marked(c', n));
  }

  lemma MarkedEnd(c: State, t: nat, n: Id)
    requires Inv(c) && t < |c.pc| && (c.pc[t] == AXchg(n) || c.pc[t] == TTry(n))
    requires Stuck((s, s') => ContinueBut(t, s, s'), c)
    ensures var m := Marked(c, n);
            && m.tail == None && m.head == |m.order| && |m.pc| == |c.pc| && m.pc[t] == c.pc[t]
            && n < |m.nodes| && m.nodes[n] == FRESH.(owner := t, nextFlag := Set)
            && forall v: nat :: v < |m.pc| && v != t ==> m.pc[v] == Idle
  {
    hide Inv, CanAdvance, Advance;
    var next := (s, s') => ContinueBut(t, s, s');
    forall v: nat | v != t ensures !CanAdvance(c, v) {
      assert CanAdvance(c, v) ==> next(c, Advance(c, v));
    }
    OthersOut(c, t, n);
    FreshNode(c, t, n);
  }

  lemma FreshNode(s: State, t: nat, n: Id)
    requires Inv(s) && t < |s.pc| && (s.pc[t] == AXchg(n) || s.pc[t] == TTry(n))
    ensures n < |s.nodes| && s.nodes[n] == FRESH.(owner := t)
  {
    assert Local(s, t);
  }

  /** The new owner takes the free lock; another thread queues behind it and is
  slow to link itself.  The mark makes the release believe that it has. */
  lemma MarkedRelease(s: State, t: nat, n: Id, u: nat) returns (run: seq<State>)
    requires t < |s.pc| && u < |s.pc| && u != t && (s.pc[t] == AXchg(n) || s.pc[t] == TTry(n)) && s.pc[u] == Idle
    requires s.tail == None && s.head == |s.order| && n < |s.nodes|
    requires s.nodes[n] == FRESH.(owner := t, nextFlag := Set)
    ensures Path(Next, run) && Next(s, run[0]) && Broken(run[|run| - 1])
  {
    hide Begin, Continue, Advance, CanAdvance, Next, Broken;
    TakesFree(s, t, n);
    var a := Advance(s, t);
    var c := QueuesBehind(a, u, n);
    var release := NullRelease(c[1], t, n);
    PathJoin(Next, [a], c);
    PathJoin(Next, [a] + c, release);
    run := [a] + c + release;
  }

  lemma TakesFree(s: State, t: nat, n: Id)
    requires t < |s.pc| && (s.pc[t] == AXchg(n) || s.pc[t] == TTry(n)) && n < |s.nodes|
    requires s.tail == None && s.head == |s.order|
    ensures CanAdvance(s, t) && Next(s, Advance(s, t))
    ensures var a := Advance(s, t);
            && a.tail == Some(n) && a.pc == s.pc[t := Crit(n)] && a.head <= |a.order| && |a.nodes| == |s.nodes|
            && a.nodes[n].next == s.nodes[n].next && a.nodes[n].nextFlag == s.nodes[n].nextFlag
  {
  }

  /** A call with a new node that gets as far as its exchange. */
  lemma QueuesBehind(a: State, u: nat, n: Id) returns (run: seq<State>)
    requires u < |a.pc| && a.pc[u] == Idle && a.tail == Some(n) && a.head <= |a.order| && n < |a.nodes|
    ensures |run| == 2 && Next(a, run[0]) && Path(Next, run)
    ensures var c := run[1];
            && c.pc == a.pc[u := ALink(|a.nodes|, n)] && c.tail == Some(|a.nodes|) && c.head <= |c.order|
            && n < |c.nodes| && c.nodes[n] == a.nodes[n]
  {
    var k := |a.nodes|;
    var b := NewCall(a, u, AXchg(k));
    assert b.pc == a.pc[u := AXchg(k)] && b.nodes == a.nodes + [FRESH.(owner := u)] && b.tail == Some(n);
    assert Call(a.pc[u], AXchg(k), |a.nodes|) && Begin(a, b);
    hide Begin, NewCall;
    var c := Advance(b, u);
    assert c.pc == b.pc[u := ALink(k, n)];
    assert Continue(b, c);
    hide Continue;
    run := [b, c];
  }

  lemma NullRelease(c: State, t: nat, n: Id) returns (run: seq<State>)
    requires t < |c.pc| && c.pc[t] == Crit(n) && n < |c.nodes| && c.head <= |c.order| && c.tail != Some(n)
    requires c.nodes[n].next == None && c.nodes[n].nextFlag == Set
    ensures Path(Next, run) && Next(c, run[0]) && Broken(run[|run| - 1])
  {
    hide Next, CanAdvance;
    var d := Move(c, t, RNext(n));
    var e := Move(c, t, RCas(n));
    var f := Move(c, t, RWait(n));
    var g := Move(c, t, RReload(n));
    var h := Move(c, t, RNull);
    ReleaseStep(c, d, t, n);
    ReleaseStep(d, e, t, n);
    ReleaseStep(e, f, t, n);
    ReleaseStep(f, g, t, n);
    ReleaseStep(g, h, t, n);
    assert h.pc[t] == RNull;
    run := [d, e, f, g, h];
  }

  /** The steps of a release that finds no link but the mark. */
  lemma ReleaseStep(s: State, s': State, t: nat, n: Id)
    requires t < |s.pc| && n < |s.nodes| && s.head <= |s.order| && s.tail != Some(n)
    requires s.nodes[n].next == None && s.nodes[n].nextFlag == Set
    requires s' == Move(s, t, match s.pc[t]
                              case Crit(_) => RNext(n)
                              case RNext(_) => RCas(n)
                              case RCas(_) => RWait(n)
                              case RWait(_) => RReload(n)
                              case _ => RNull)
    requires s.pc[t] in {Crit(n), RNext(n), RCas(n), RWait(n), RReload(n)}
    ensures Next(s, s')
  {
    assert CanAdvance(s, t);
    assert s.nodes[n := s.nodes[n]] == s.nodes;
    assert Advance(s, t) == s';
    assert Continue(s, s');
    hide Begin;
  }

  lemma LateStep(s: State, t: nat, p: PC, n: Id, u: nat) returns (c: State)
    requires Inv(s) && t < |s.pc| && n < |s.nodes| && s.pc[t] == Idle && Call(Idle, p, n)
    requires forall v: nat :: v < |s.pc| ==> !Brought(s.pc[v], n)
    requires u < |s.pc| && Notifies(s.pc[u], n)
    ensures Inv(c) && |c.pc| == |s.pc| && c.pc[t] == p && n < |c.nodes| && Next(Recycle(s, t, p, n), Marked(c, n))
  {
    hide Inv, Advance, CanAdvance, Marked, Brought, Begin;
    LateNotice(s, t, p, n, u);
    AdvanceLowersRank(s, u);
    AdvanceAllocates(s, u);
    c := Recycle(Advance(s, u), t, p, n);
    assert Continue(Recycle(s, t, p, n), Marked(c, n));
  }

  lemma AdvanceAllocates(s: State, t: nat)
    requires CanAdvance(s, t)
    ensures |Advance(s, t).nodes| == |s.nodes|
  {
  }

  lemma EarlyReuse(s: State, t: nat, p: PC, n: Id, u: nat)
    requires Inv(s) && t < |s.pc| && n < |s.nodes| && s.pc[t] == Idle && Call(Idle, p, n)
    requires forall v: nat :: v < |s.pc| ==> !Brought(s.pc[v], n)
    requires u < |s.pc| && Notifies(s.pc[u], n)
    ensures MayBreak(Recycle(s, t, p, n))
  {
    hide Inv, Advance, CanAdvance, Marked, Recycle, Brought, Continue, Begin;
    var c := LateStep(s, t, p, n, u);
    var r := Recycle(s, t, p, n);
    var others := ServeOthers(c, t, n);
    var last := MarkedRelease(others[|others| - 1], t, n, u);
    PathJoin(Next, others, last);
    PathJoin(Next, [r], others + last);
    var run := [r] + (others + last);
    assert run[0] == r && run[|run| - 1] == last[|last| - 1];
  }

  /** An acquire or try-acquire with a node whose calls are over can lead to a
  broken release if and only if somebody is still notifying the node. */
  lemma ReuseIff(s: State, t: nat, p: PC, n: Id)
    requires Reached(s) && t < |s.pc| && n < |s.nodes| && s.pc[t] == Idle && Call(Idle, p, n)
    requires forall u: nat :: u < |s.pc| ==> !Brought(s.pc[u], n)
    ensures MayBreak(Recycle(s, t, p, n)) <==> exists u: nat :: u < |s.pc| && Notifies(s.pc[u], n)
  {
    ReachedInv(s);
    if u: nat :| u < |s.pc| && Notifies(s.pc[u], n) {
      EarlyReuse(s, t, p, n, u);
    } else {
      RecycleInv(s, t, p, n);
      NeverBreaks(Recycle(s, t, p, n));
    }
  }

  lemma NeverBreaks(s: State)
    requires Inv(s)
    ensures !MayBreak(s)
  {
    hide Inv, Next;
    NextInv();
    forall run | Path(Next, run) && run[0] == s ensures !Broken(run[|run| - 1]) {
      InvariantAlongRun(Inv, Next, run);
      Unbroken(run[|run| - 1]);
    }
  }

  lemma Unbroken(s: State)
    requires Inv(s)
    ensures !Broken(s)
  {
    forall t: nat | t < |s.pc| ensures s.pc[t] != RNull { assert Local(s, t); }
  }

  /** Thread 0 releases while thread 1, which queued behind it, has linked itself
  but not set the flag yet. */
  ghost function Slow(nodes: seq<Node>, head: nat, p: PC, q: PC): State
    requires nodes != []
  {
    State(Some(|nodes| - 1), nodes, if |nodes| == 2 then [0, 1] else [0], head, None, [p, q])
  }

  lemma SlowReached()
    ensures var c, d := FRESH.(owner := 0, ticket := 0, next := Some(1)), FRESH.(owner := 1, ticket := 1, ready := Set);
            Reached(Slow([c, d], 1, Idle, ASet(1, 0)))
  {
    hide Reached, Slow;
    var a, b := FRESH.(owner := 0, ticket := 0), FRESH.(owner := 1, ticket := 1);
    SlowHolder(a);
    SlowLinker(a, b);
    SlowRelease(a, b, a.(next := Some(1)));
  }

  lemma SlowHolder(a: Node)
    requires a == FRESH.(owner := 0, ticket := 0)
    ensures Reached(Slow([a], 0, Crit(0), Idle))
  {
    hide Reached;
    var s0 := State(None, [], [], 0, None, [Idle, Idle]);
    var s1 := s0.(nodes := [FRESH.(owner := 0)], pc := [AXchg(0), Idle]);
    ReachedStart(s0);
    ReachedCall(s0, s1, 0, AXchg(0));
    ReachedStep(s1, Slow([a], 0, Crit(0), Idle), 0);
  }

  lemma SlowLinker(a: Node, b: Node)
    requires a == FRESH.(owner := 0, ticket := 0) && b == FRESH.(owner := 1, ticket := 1)
    requires Reached(Slow([a], 0, Crit(0), Idle))
    ensures Reached(Slow([a, b], 0, Crit(0), ALink(1, 0)))
  {
    hide Reached;
    var s2 := Slow([a], 0, Crit(0), Idle);
    var s3 := s2.(nodes := [a, b.(ticket := -1)], pc := [Crit(0), AXchg(1)]);
    ReachedCall(s2, s3, 1, AXchg(1));
    ReachedStep(s3, Slow([a, b], 0, Crit(0), ALink(1, 0)), 1);
  }

  lemma SlowRelease(a: Node, b: Node, c: Node)
    requires a == FRESH.(owner := 0, ticket := 0) && b == FRESH.(owner := 1, ticket := 1) && c == a.(next := Some(1))
    requires Reached(Slow([a, b], 0, Crit(0), ALink(1, 0)))
    ensures Reached(Slow([c, b.(ready := Set)], 1, Idle, ASet(1, 0)))
  {
    hide Reached;
    var s4 := Slow([a, b], 0, Crit(0), ALink(1, 0));
    var s5 := Slow([c, b], 0, Crit(0), ASet(1, 0));
    var s6 := Slow([c, b], 0, RNext(0), ASet(1, 0));
    var s7 := Slow([c, b], 0, RGrant(0, 1), ASet(1, 0));
    ReachedStep(s4, s5, 1);
    ReachedStep(s5, s6, 0);
    ReachedStep(s6, s7, 0);
    ReachedStep(s7, Slow([c, b.(ready := Set)], 1, Idle, ASet(1, 0)), 0);
  }

  // ------------------------------------------------------ any node again

  /** A call brings any node whose calls are over. */
  ghost predicate Rebrings(s: State, s': State, t: nat, p: PC, n: Id) {
    && t < |s.pc| && n < |s.nodes| && Call(s.pc[t], p, n) && s' == Recycle(s, t, p, n)
    && forall u: nat :: u < |s.pc| ==> !Brought(s.pc[u], n)
  }

  /** Runs with such calls; a null pointer ends them. */
  ghost predicate AnyNext(s: State, s': State) {
    !Broken(s) && (Next(s, s') || exists t: nat, p: PC, n: Id :: Rebrings(s, s', t, p, n))
  }

  /** An acquire or try-acquire with a node that somebody is still notifying. */
  ghost predicate Hasty(s: State, s': State) {
    exists t: nat, p: PC, n: Id, u: nat ::
      Rebrings(s, s', t, p, n) && s.pc[t] == Idle && u < |s.pc| && Notifies(s.pc[u], n)
  }

  /** No run breaks without such a call. */
  lemma OnlyHasteBreaks(run: seq<State>)
    requires Path(AnyNext, run) && Init(run[0]) && Broken(run[|run| - 1])
    ensures exists i :: 0 <= i < |run| - 1 && Hasty(run[i], run[i + 1])
  {
    hide Init, Broken, Rebrings, Hasty, Next;
    if forall i :: 0 <= i < |run| - 1 ==> !Hasty(run[i], run[i + 1]) {
      forall i | 0 <= i < |run| - 1 ensures Next(run[i], run[i + 1]) {
        assert AnyNext(run[i], run[i + 1]) && !Hasty(run[i], run[i + 1]);
        if !Next(run[i], run[i + 1]) {
          var t: nat, p: PC, n: Id :| Rebrings(run[i], run[i + 1], t, p, n);
          PatientIsNext(run[i], run[i + 1], t, p, n);
        }
      }
      var s := run[|run| - 1];
      assert Path(Next, run);
      assert Reached(s);
      ReachedInv(s);
      Unbroken(s);
    }
  }

  lemma PatientIsNext(s: State, s': State, t: nat, p: PC, n: Id)
    requires Rebrings(s, s', t, p, n) && !Hasty(s, s')
    ensures Next(s, s')
  {
    assert forall u: nat :: u < |s.pc| && s.pc[t] == Idle ==> !Notifies(s.pc[u], n);
    assert Recycles(s, s', t, p, n);
  }

  // What else can go wrong?  Nothing: such a run has a twin, a run in which every
  // node is reusable when it is brought, and only flags and waits for nextFlag differ.

  /** Where a thread is in the twin: it has notified its predecessor already, and has
  not yet looked for its successor. */
  predicate SamePlace(p: PC, q: PC) {
    match p
    case ASet(n, _) => q == AWait(n)
    case ASignal(n, _) => q == AWait(n)
    case RCas(n) => q == RNext(n)
    case RWait(n) => q == RNext(n)
    case RStore(n) => q == RNext(n)
    case RBlock(n) => q == RNext(n)
    case RReload(n) => q == RNext(n)
    case RNull => q.RNext?
    case _ => q == p
  }

  function WithFlag(x: Node, y: Node): Node { x.(nextFlag := y.nextFlag) }

  ghost predicate SameNodes(d: seq<Node>, c: seq<Node>) {
    |c| == |d| && forall i :: 0 <= i < |d| ==> c[i] == WithFlag(d[i], c[i])
  }

  ghost predicate SamePlaces(d: seq<PC>, c: seq<PC>) {
    |c| == |d| && forall t :: 0 <= t < |d| ==> SamePlace(d[t], c[t])
  }

  ghost predicate Twin(d: State, c: State) {
    && c.tail == d.tail && c.order == d.order && c.head == d.head && c.granter == d.granter
    && SameNodes(d.nodes, c.nodes) && SamePlaces(d.pc, c.pc)
  }

  lemma SameNodesAt(d: seq<Node>, c: seq<Node>, i: Id)
    requires SameNodes(d, c) && i < |d|
    ensures |c| == |d| && c[i] == WithFlag(d[i], c[i])
  {
  }

  lemma SameNodesSet(d: seq<Node>, c: seq<Node>, i: Id, x: Node, y: Node)
    requires SameNodes(d, c) && i < |d| && y == WithFlag(x, y)
    ensures |c| == |d| && SameNodes(d[i := x], c[i := y])
  {
  }

  lemma SamePlacesMove(d: seq<PC>, c: seq<PC>, t: nat, p: PC, q: PC)
    requires SamePlaces(d, c) && t < |d| && SamePlace(p, q)
    ensures |c| == |d| && SamePlace(d[t], c[t]) && SamePlaces(d[t := p], c[t := q])
  {
  }

  /** Steps that the twin does not see. */
  predicate Unseen(s: State, t: nat)
    requires CanAdvance(s, t)
  {
    var p := s.pc[t];
    || p.ASet? || p.ASignal? || p.RWait? || p.RStore? || p.RBlock?
    || ((p.RNext? || p.RReload?) && s.nodes[p.n].next == None) || (p.RCas? && s.tail != Some(p.n))
  }

  lemma TwinUnseen(d: State, t: nat, c: State)
    requires Twin(d, c) && CanAdvance(d, t) && Unseen(d, t)
    ensures Twin(Advance(d, t), c)
  {
  }

  /** Own steps that the twin takes as well. */
  lemma TwinOwn(d: State, t: nat, c: State)
    requires Twin(d, c) && CanAdvance(d, t) && !Unseen(d, t) && OwnStep(d.pc[t])
    ensures CanAdvance(c, t) && Twin(Advance(d, t), Advance(c, t))
  {
  }

  lemma TwinOther(d: State, t: nat, c: State)
    requires Twin(d, c) && CanAdvance(d, t) && !Unseen(d, t) && !OwnStep(d.pc[t]) && !PredStep(d.pc[t])
    requires !d.pc[t].RCas?
    ensures CanAdvance(c, t) && Twin(Advance(d, t), Advance(c, t))
  {
    hide Advance, Twin;
    if d.pc[t].RGrant? || d.pc[t].RSignal? {
      TwinGrant(d, t, c);
    } else if d.pc[t].AXchg? || d.pc[t].TTry? {
      TwinExchange(d, t, c);
    } else {
      TwinReplace(d, t, c);
    }
  }

  lemma TwinGrant(d: State, t: nat, c: State)
    requires Twin(d, c) && CanAdvance(d, t) && (d.pc[t].RGrant? || d.pc[t].RSignal?)
    ensures CanAdvance(c, t) && Twin(Advance(d, t), Advance(c, t))
  {
    hide SameNodes, SamePlaces;
    var p := Advance(d, t).pc[t];
    var x := d.pc[t].succ;
    SamePlacesMove(d.pc, c.pc, t, p, p);
    SameNodesAt(d.nodes, c.nodes, x);
    SameNodesSet(d.nodes, c.nodes, x, d.nodes[x].(ready := Set), c.nodes[x].(ready := Set));
    SameNodesSet(d.nodes, c.nodes, x, d.nodes[x].(ready := Event(true)), c.nodes[x].(ready := Event(true)));
  }

  lemma TwinExchange(d: State, t: nat, c: State)
    requires Twin(d, c) && CanAdvance(d, t) && (d.pc[t].AXchg? || d.pc[t].TTry?)
    ensures CanAdvance(c, t) && Twin(Advance(d, t), Advance(c, t))
  {
  }

  lemma TwinReplace(d: State, t: nat, c: State)
    requires Twin(d, c) && CanAdvance(d, t) && (d.pc[t].XCas? || d.pc[t].XCopy?)
    ensures CanAdvance(c, t) && Twin(Advance(d, t), Advance(c, t))
  {
    hide SameNodes, SamePlaces, Replace;
    var n, m := d.pc[t].n, d.pc[t].m;
    var p := if d.pc[t].XCopy? || d.tail == Some(n) then Crit(m) else XSpin(n, m);
    SamePlacesMove(d.pc, c.pc, t, p, p);
    SameNodesAt(d.nodes, c.nodes, n);
    TwinReplaced(d, c, n, m, None);
    TwinReplaced(d, c, n, m, d.nodes[n].next);
  }

  lemma TwinReplaced(d: State, c: State, n: Id, m: Id, next: Option<Id>)
    requires Twin(d, c) && n < |d.nodes| && m < |d.nodes|
    ensures n < |c.nodes| && m < |c.nodes| && Twin(Replace(d, n, m, next), Replace(c, n, m, next))
    ensures Replace(d, n, m, next).pc == d.pc && Replace(c, n, m, next).pc == c.pc
  {
    hide SameNodes, SamePlaces;
    SameNodesAt(d.nodes, c.nodes, n);
    SameNodesAt(d.nodes, c.nodes, m);
    var x, y := d.nodes[n].(ticket := -1, moved := true), c.nodes[n].(ticket := -1, moved := true);
    SameNodesSet(d.nodes, c.nodes, n, x, y);
    SameNodesSet(d.nodes[n := x], c.nodes[n := y], m, d.nodes[m].(ticket := d.head, next := next),
                 c.nodes[m].(ticket := d.head, next := next));
  }

  /** The twin links and notifies at once: nobody there waits for nextFlag. */
  lemma TwinLink(d: State, t: nat, c: State)
    requires Twin(d, c) && Inv(c) && CanAdvance(d, t) && d.pc[t].ALink?
    ensures CanAdvance(c, t) && CanAdvance(Advance(c, t), t) && Twin(Advance(d, t), Advance(Advance(c, t), t))
  {
    hide Inv;
    var c1 := Advance(c, t);
    assert c1.pc[t] == ASet(d.pc[t].n, d.pc[t].pred);
    AdvanceInv(c, t);
    forall u: nat | u < |c1.pc| ensures !c1.pc[u].RBlock? {
      assert SamePlace(d.pc[u], c.pc[u]);
    }
    FlagUnset(c1, t);
    assert Advance(c1, t).pc == c1.pc[t := AWait(d.pc[t].n)];
  }

  lemma FlagUnset(s: State, t: nat)
    requires Inv(s) && t < |s.pc| && s.pc[t].ASet? && forall u: nat :: u < |s.pc| ==> !s.pc[u].RBlock?
    ensures InBounds(|s.nodes|, s.pc[t]) && s.nodes[s.pc[t].pred].nextFlag == Zero
  {
    LocalOf(s, t);
    hide Inv;
  }

  /** The twin finds no successor and frees the lock. */
  lemma TwinFree(d: State, t: nat, c: State)
    requires Twin(d, c) && Inv(c) && CanAdvance(d, t) && d.pc[t].RCas? && d.tail == Some(d.pc[t].n)
    ensures CanAdvance(c, t) && CanAdvance(Advance(c, t), t) && Twin(Advance(d, t), Advance(Advance(c, t), t))
  {
    hide Inv;
    assert c.pc[t] == RNext(d.pc[t].n);
    Unlinked(c, t);
    var c1 := Advance(c, t);
    assert c1.pc == c.pc[t := RCas(d.pc[t].n)] && c1.nodes == c.nodes;
    assert Advance(c1, t).pc == c.pc[t := Idle];
  }

  lemma Unlinked(s: State, t: nat)
    requires Inv(s) && t < |s.pc| && s.pc[t].RNext? && s.tail == Some(s.pc[t].n)
    ensures s.pc[t].n < |s.nodes| && s.nodes[s.pc[t].n].next == None && s.head <= |s.order|
  {
    HeadPlace(s, t);
    hide Inv;
  }

  lemma TwinAdvance(d: State, t: nat, c: State) returns (c': State)
    requires Twin(d, c) && Reached(c) && CanAdvance(d, t)
    ensures Reached(c') && Twin(Advance(d, t), c')
  {
    hide Reached, Inv, Advance, CanAdvance, Twin, Unseen;
    ReachedInv(c);
    CanMove(d, t);
    c' := c;
    if Unseen(d, t) {
      TwinUnseen(d, t, c);
    } else if d.pc[t].ALink? {
      TwinLink(d, t, c);
      ReachedStep(c, Advance(c, t), t);
      c' := Advance(Advance(c, t), t);
      ReachedStep(Advance(c, t), c', t);
    } else if d.pc[t].RCas? {
      SeenCas(d, t);
      TwinFree(d, t, c);
      ReachedStep(c, Advance(c, t), t);
      c' := Advance(Advance(c, t), t);
      ReachedStep(Advance(c, t), c', t);
    } else {
      SeenPred(d, t);
      if OwnStep(d.pc[t]) { TwinOwn(d, t, c); } else { TwinOther(d, t, c); }
      c' := Advance(c, t);
      ReachedStep(c, c', t);
    }
  }

  lemma SeenCas(s: State, t: nat)
    requires CanAdvance(s, t) && !Unseen(s, t) && s.pc[t].RCas?
    ensures s.tail == Some(s.pc[t].n)
  {
  }

  lemma SeenPred(s: State, t: nat)
    requires CanAdvance(s, t) && !Unseen(s, t) && !s.pc[t].ALink?
    ensures !PredStep(s.pc[t])
  {
  }

  /** In the twin a node that is brought again is not being notified. */
  lemma TwinCall(d: State, d': State, t: nat, p: PC, n: Id, c: State) returns (c': State)
    requires Twin(d, c) && Reached(c) && !Broken(d) && Rebrings(d, d', t, p, n)
    ensures Reached(c') && Twin(d', c')
  {
    hide Reached, Twin, Recycle, Broken, Brought, Begin;
    TwinReusable(d, t, p, n, c);
    TwinRecycle(d, t, p, n, c);
    c' := Recycle(c, t, p, n);
    assert Recycles(c, c', t, p, n);
    BeginRecycles(c, c', t, p, n);
    ReachedNext(c, c');
  }

  lemma BeginRecycles(c: State, c': State, t: nat, p: PC, n: Id)
    requires Recycles(c, c', t, p, n)
    ensures Next(c, c')
  {
    hide Recycles;
  }

  lemma TwinReusable(d: State, t: nat, p: PC, n: Id, c: State)
    requires Twin(d, c) && !Broken(d) && t < |d.pc| && n < |d.nodes| && Call(d.pc[t], p, n)
    requires forall u: nat :: u < |d.pc| ==> !Brought(d.pc[u], n)
    ensures t < |c.pc| && n < |c.nodes| && Reusable(c, p, n) && Call(c.pc[t], p, n)
  {
    forall u: nat | u < |c.pc| ensures !Brought(c.pc[u], n) && !Notifies(c.pc[u], n) {
      assert SamePlace(d.pc[u], c.pc[u]) && d.pc[u] != RNull && !Brought(d.pc[u], n);
    }
    assert SamePlace(d.pc[t], c.pc[t]);
  }

  lemma TwinRecycle(d: State, t: nat, p: PC, n: Id, c: State)
    requires Twin(d, c) && t < |d.pc| && n < |d.nodes| && Call(d.pc[t], p, n)
    ensures t < |c.pc| && n < |c.nodes| && Twin(Recycle(d, t, p, n), Recycle(c, t, p, n))
  {
  }

  lemma TwinBegin(d: State, d': State, c: State) returns (c': State)
    requires Twin(d, c) && Reached(c) && !Broken(d) && Begin(d, d')
    ensures Reached(c') && Twin(d', c')
  {
    hide Reached, Twin, Recycles, Rebrings, Broken, Call, HandOff, NewCall;
    if t: nat, p: PC, n: Id :| Recycles(d, d', t, p, n) {
      RecyclesRebrings(d, d', t, p, n);
      c' := TwinCall(d, d', t, p, n, c);
    } else if t: nat, p: PC :| t < |d.pc| && Call(d.pc[t], p, |d.nodes|) && d' == NewCall(d, t, p) {
      TwinNewCall(d, t, p, c);
      c' := NewCall(c, t, p);
      ReachedCall(c, c', t, p);
    } else {
      var t: nat, u: nat :| t < |d.pc| && u < |d.pc| && d.pc[t].Crit? && d.pc[t].n < |d.nodes| && d.pc[u] == Idle
                            && d' == HandOff(d, t, u);
      TwinHandOff(d, t, u, c);
      c' := HandOff(c, t, u);
      ReachedHandOff(c, t, u);
    }
  }

  lemma ReachedNext(s: State, s': State)
    requires Reached(s) && Next(s, s')
    ensures Reached(s')
  {
    OneMore(Init, Next, s, s');
  }

  lemma ReachedHandOff(s: State, t: nat, u: nat)
    requires Reached(s) && t < |s.pc| && u < |s.pc| && s.pc[t].Crit? && s.pc[t].n < |s.nodes| && s.pc[u] == Idle
    ensures Reached(HandOff(s, t, u))
  {
    hide Reached;
    assert Begin(s, HandOff(s, t, u));
    ReachedNext(s, HandOff(s, t, u));
  }

  lemma RecyclesRebrings(s: State, s': State, t: nat, p: PC, n: Id)
    requires Recycles(s, s', t, p, n)
    ensures Rebrings(s, s', t, p, n)
  {
  }

  lemma TwinNewCall(d: State, t: nat, p: PC, c: State)
    requires Twin(d, c) && t < |d.pc| && Call(d.pc[t], p, |d.nodes|)
    ensures t < |c.pc| && Call(c.pc[t], p, |c.nodes|) && Twin(NewCall(d, t, p), NewCall(c, t, p))
  {
  }

  lemma TwinHandOff(d: State, t: nat, u: nat, c: State)
    requires Twin(d, c) && t < |d.pc| && u < |d.pc| && d.pc[t].Crit? && d.pc[t].n < |d.nodes| && d.pc[u] == Idle
    ensures t < |c.pc| && u < |c.pc| && c.pc[t].Crit? && c.pc[t].n < |c.nodes| && c.pc[u] == Idle
    ensures Twin(HandOff(d, t, u), HandOff(c, t, u))
  {
  }

  lemma TwinStep(d: State, d': State, c: State) returns (c': State)
    requires Twin(d, c) && Reached(c) && AnyNext(d, d')
    ensures Reached(c') && Twin(d', c')
  {
    hide Reached, Twin, Broken, Begin, Advance, CanAdvance, Rebrings;
    if Continue(d, d') {
      var t: nat :| t < |d.pc| && CanAdvance(d, t) && d' == Advance(d, t);
      c' := TwinAdvance(d, t, c);
    } else if Begin(d, d') {
      c' := TwinBegin(d, d', c);
    } else {
      var t: nat, p: PC, n: Id :| Rebrings(d, d', t, p, n);
      c' := TwinCall(d, d', t, p, n, c);
    }
  }

  ghost predicate AnyReached(s: State) {
    Reachable(Init, AnyNext, s)
  }

  /** Every such run has a twin. */
  lemma TwinRun(d: State) returns (c: State)
    requires AnyReached(d)
    ensures Reached(c) && Twin(d, c)
  {
    hide Reached, Twin, AnyNext, Init;
    var inv := (d: State) => exists c :: Reached(c) && Twin(d, c);
    forall d, d' | inv(d) && AnyNext(d, d') ensures inv(d') {
      var c :| Reached(c) && Twin(d, c);
      var c' := TwinStep(d, d', c);
    }
    forall d | Init(d) ensures inv(d) {
      ReachedStart(d);
      TwinStart(d);
    }
    ReachableInvariant(Init, inv, AnyNext, d);
    c :| Reached(c) && Twin(d, c);
  }

  lemma TwinStart(d: State)
    requires Init(d)
    ensures Twin(d, d)
  {
  }

  /** Whatever nodes are brought again, at most one thread holds the lock or is giving
  it up, its node is the head of the queue, and the lock pointer names the last node
  or is null. */
  lemma AnyExclusion(s: State)
    requires AnyReached(s)
    ensures forall t, u | 0 <= t < u < |s.pc| :: !(Releasing(s.pc[t]) && Releasing(s.pc[u]))
    ensures forall t | 0 <= t < |s.pc| && Releasing(s.pc[t]) :: Queue(s) != [] && Queue(s)[0] == s.pc[t].n
    ensures s.tail == (if Queue(s) == [] then None else Some(Queue(s)[|Queue(s)| - 1]))
    ensures forall i, j | 0 <= i < j < |Queue(s)| :: Queue(s)[i] != Queue(s)[j]
  {
    hide AnyReached, Reached, Twin, Queue;
    var c := TwinRun(s);
    MutualExclusion(c);
    TwinQueue(s, c);
    hide SamePlace;
    forall t | 0 <= t < |s.pc| && Releasing(s.pc[t]) ensures Releasing(c.pc[t]) && c.pc[t].n == s.pc[t].n {
      TwinReleasing(s.pc[t], c.pc[t]);
    }
  }

  lemma TwinQueue(d: State, c: State)
    requires Twin(d, c)
    ensures Queue(c) == Queue(d) && c.tail == d.tail && |c.pc| == |d.pc|
    ensures forall t :: 0 <= t < |d.pc| ==> SamePlace(d.pc[t], c.pc[t])
  {
  }

  lemma TwinReleasing(p: PC, q: PC)
    requires SamePlace(p, q) && Releasing(p)
    ensures Releasing(q) && q.n == p.n
  {
  }

  /** And the lock stays a first-in first-out queue. */
  lemma AnyFifo(s: State, t: nat)
    requires AnyReached(s) && CanAdvance(s, t)
    ensures Queue(Advance(s, t)) == QueueAfter(Queue(s), s.pc[t])
  {
    hide AnyReached, Reached, Twin, Advance, QueueAfter;
    var c := TwinRun(s);
    FrameOf(c);
    TwinFrame(s, c);
    if OwnStep(s.pc[t]) || PredStep(s.pc[t]) || s.pc[t].RSignal? {
      OrderKept(s, t);
      OrderStays(s, t);
    } else if s.pc[t].AXchg? || s.pc[t].TTry? {
      RefinesEntry(s, t);
    } else {
      AnyExclusion(s);
      assert Queue(s)[|Queue(s)| - 1] == s.order[|s.order| - 1] && Queue(s)[0] == s.order[s.head];
      ExitEffect(s, t);
      ExitSlices(s.order, s.head, s.pc[t]);
    }
  }

  lemma TwinFrame(d: State, c: State)
    requires Twin(d, c) && Frame(c)
    ensures Frame(d)
  {
  }

  lemma OrderStays(s: State, t: nat)
    requires CanAdvance(s, t) && (OwnStep(s.pc[t]) || PredStep(s.pc[t]) || s.pc[t].RSignal?)
    ensures QueueAfter(Queue(s), s.pc[t]) == Queue(s)
  {
  }

  /** The shortest way to break: thread 0 releases and acquires with its node
  again before thread 1 has set the flag. */
  lemma ReuseExample() returns (run: seq<State>)
    ensures Path(AnyNext, run) && Init(run[0]) && |run[0].pc| == 2 && Broken(run[|run| - 1])
  {
    hide Init, Broken, Next;
    SlowReached();
    var a, b := FRESH.(owner := 0, ticket := 0, next := Some(1)), FRESH.(owner := 1, ticket := 1, ready := Set);
    var s := Slow([a, b], 1, Idle, ASet(1, 0));
    assert Notifies(s.pc[1], 0) && !Brought(s.pc[0], 0) && !Brought(s.pc[1], 0);
    ReuseIff(s, 0, AXchg(0), 0);
    var r := Recycle(s, 0, AXchg(0), 0);
    assert Rebrings(s, r, 0, AXchg(0), 0);
    var before: seq<State> :| Path(Next, before) && Init(before[0]) && before[|before| - 1] == s;
    var later: seq<State> :| Path(Next, later) && later[0] == r && Broken(later[|later| - 1]);
    var after := FirstBroken(later);
    UnbrokenPath(before);
    AnyPath(before);
    AnyPath(after);
    PathJoin(AnyNext, before, after);
    SameThreads(before);
    run := before + after;
  }

  /** The run up to its first broken state. */
  lemma {:induction false} FirstBroken(run: seq<State>) returns (r: seq<State>)
    requires Path(Next, run) && Broken(run[|run| - 1])
    ensures Path(Next, r) && r[0] == run[0] && Broken(r[|r| - 1]) && forall i :: 0 <= i < |r| - 1 ==> !Broken(r[i])
  {
    hide Next, Broken;
    if Broken(run[0]) {
      r := run[..1];
    } else {
      var rest := run[1..];
      forall i | 0 <= i < |rest| - 1 ensures Next(rest[i], rest[i + 1]) {
        assert Next(run[i + 1], run[i + 2]);
      }
      r := FirstBroken(rest);
      assert Next(run[0], run[1]);
      PathJoin(Next, [run[0]], r);
      r := [run[0]] + r;
    }
  }

  lemma UnbrokenPath(run: seq<State>)
    requires Path(Next, run) && Init(run[0])
    ensures forall i :: 0 <= i < |run| ==> !Broken(run[i])
  {
    hide Next, Broken, Inv, Init;
    NextInv();
    InitInv(run[0]);
    InvariantAlongRun(Inv, Next, run);
    forall i | 0 <= i < |run| ensures !Broken(run[i]) { Unbroken(run[i]); }
  }

  lemma AnyPath(run: seq<State>)
    requires Path(Next, run) && forall i :: 0 <= i < |run| - 1 ==> !Broken(run[i])
    ensures Path(AnyNext, run)
  {
    hide Next, Broken;
  }

  /** No step makes or ends a thread. */
  lemma SameThreads(run: seq<State>)
    requires Path(Next, run)
    ensures |run[|run| - 1].pc| == |run[0].pc|
  {
    var k := |run[0].pc|;
    hide Next, Path;
    forall s: State, s': State | |s.pc| == k && Next(s, s') ensures |s'.pc| == k { SameThreadsStep(s, s'); }
    InvariantAlongRun((s: State) => |s.pc| == k, Next, run);
  }

  lemma SameThreadsStep(s: State, s': State)
    requires Next(s, s')
    ensures |s'.pc| == |s.pc|
  {
  }

  lemma ReachedStart(s: State)
    requires Init(s)
    ensures Reached(s)
  {
    assert Path(Next, [s]);
  }

  lemma ReachedStep(s: State, s': State, t: nat)
    requires Reached(s) && CanAdvance(s, t) && s' == Advance(s, t)
    ensures Reached(s')
  {
    CanMove(s, t);
    assert Continue(s, s');
    OneMore(Init, Next, s, s');
  }

  lemma ReachedCall(s: State, s': State, t: nat, p: PC)
    requires Reached(s) && t < |s.pc| && Call(s.pc[t], p, |s.nodes|) && s' == NewCall(s, t, p)
    ensures Reached(s')
  {
    assert Begin(s, s');
    OneMore(Init, Next, s, s');
  }
}
