/** The destructor passes of ptw32_callUserDestroyRoutines.c as one thread sees them:
a reference on values for the heap of KeyGrid.  Keys and threads are named by
number.  What destructors and other threads do is given by scripts, which may set
values, delete keys and create new ones. */
module KeyScripts {

  const PTHREAD_DESTRUCTOR_ITERATIONS := 4

  /** A call made by a destructor or by another thread.  Threads and keys are
  named by their number; a call that names none, or a deleted key, is not legal
  and is not made. */
  datatype Op =
    | CreateKey(destructor: bool)
    | DeleteKey(key: nat)
    | SetValue(thread: nat, key: nat, value: nat)

  /** One trip around the inner loop: what the other threads do while the exiting
  thread holds no lock, whether the key's lock is then found taken, and what the
  destructor of a key does if it is called on this trip with a value. */
  datatype Turn = Turn(others: seq<Op>, busy: bool, callback: (nat, nat) -> seq<Op>)

  /** What matters to the exiting thread: which keys have destructors and are live,
  its own values, the keys it is associated with, the newest first, and those of
  them that the pass has still to visit. */
  datatype View = View(destructors: seq<bool>, live: seq<bool>, values: seq<nat>, chain: seq<nat>, rest: seq<nat>)

  /** A call of a destructor, on the given trip. */
  datatype Invocation = Invocation(pass: nat, key: nat, value: nat, turn: nat)

  predicate Keys(v: View, c: seq<nat>) {
    forall k :: k in c ==> k < |v.live| && v.live[k] && k < |v.destructors| && v.destructors[k]
  }

  /** The keys associated are live and have destructors. */
  predicate Sound(v: View) {
    |v.destructors| == |v.live| == |v.values| && Keys(v, v.chain) && Keys(v, v.rest)
  }

  function Drop(c: seq<nat>, k: nat): (r: seq<nat>)
    ensures |r| <= |c| && k !in r && forall x :: x in r <==> x in c && x != k
  {
    if c == [] then [] else (if c[0] == k then [] else [c[0]]) + Drop(c[1..], k)
  }

  /** A call by the exiting thread itself, or by another one; mine tells which
  numbers name the exiting thread. */
  function Apply(v: View, op: Op, mine: seq<bool>, own: bool): (r: View)
    requires Sound(v)
    ensures Sound(r) && |v.live| <= |r.live| && |r.rest| <= |v.rest|
    ensures forall k :: 0 <= k < |v.live| && r.live[k] ==> v.live[k]
  {
    match op
    case CreateKey(destructor) =>
      v.(destructors := v.destructors + [destructor], live := v.live + [true], values := v.values + [0])
    case DeleteKey(k) =>
      if k < |v.live| && v.live[k]
      then v.(live := v.live[k := false], chain := Drop(v.chain, k), rest := Drop(v.rest, k))
      else v
    case SetValue(t, k, value) =>
      if own && t < |mine| && mine[t] && k < |v.live| && v.live[k] then
        v.(values := v.values[k := value],
           chain := if v.destructors[k] && value != 0 && k !in v.chain then [k] + v.chain else v.chain)
      else v
  }

  lemma ApplyDelete(v: View, k: nat, mine: seq<bool>, own: bool)
    requires Sound(v) && k < |v.live| && v.live[k]
    ensures Apply(v, DeleteKey(k), mine, own)
         == v.(live := v.live[k := false], chain := Drop(v.chain, k), rest := Drop(v.rest, k))
  {
  }

  lemma ApplySet(v: View, t: nat, k: nat, value: nat, mine: seq<bool>, own: bool)
    requires Sound(v) && k < |v.live| && v.live[k] && t < |mine| && (own || !mine[t])
    ensures Apply(v, SetValue(t, k, value), mine, own)
         == if !mine[t] then v
            else v.(values := v.values[k := value],
                    chain := if v.destructors[k] && value != 0 && k !in v.chain then [k] + v.chain else v.chain)
  {
  }

  function ApplyAll(v: View, ops: seq<Op>, mine: seq<bool>, own: bool): (r: View)
    requires Sound(v)
    ensures Sound(r) && |v.live| <= |r.live| && |r.rest| <= |v.rest|
    ensures forall k :: 0 <= k < |v.live| && r.live[k] ==> v.live[k]
  {
    if ops == [] then v else Apply(ApplyAll(v, ops[..|ops| - 1], mine, own), ops[|ops| - 1], mine, own)
  }

  /** The key that the pass visits next. */
  function First(v: View): (k: nat)
    requires Sound(v) && v.rest != []
    ensures k < |v.values| && k == v.rest[0]
  {
    assert v.rest[0] in v.rest;
    v.rest[0]
  }

  /** The pass steps on, and takes the value. */
  function Claimed(v: View): (r: View)
    requires Sound(v) && v.rest != []
    ensures Sound(r) && |r.rest| == |v.rest| - 1 && r.live == v.live
  {
    assert forall k :: k in v.rest[1..] ==> k in v.rest;
    v.(rest := v.rest[1..], values := v.values[First(v) := 0])
  }

  predicate Calls(value: nat, pass: nat) {
    value != 0 && pass <= PTHREAD_DESTRUCTOR_ITERATIONS
  }

  /** The pass steps on to the next association, and calls its destructor or drops it. */
  function Visited(v: View, pass: nat, callback: (nat, nat) -> seq<Op>, mine: seq<bool>): (r: View)
    requires Sound(v) && v.rest != []
    ensures Sound(r) && |v.live| <= |r.live| && |r.rest| < |v.rest|
    ensures forall k :: 0 <= k < |v.live| && r.live[k] ==> v.live[k]
  {
    var k := First(v);
    var w := Claimed(v);
    if Calls(v.values[k], pass) then ApplyAll(w, callback(k, v.values[k]), mine, true)
    else w.(chain := Drop(w.chain, k))
  }

  ghost predicate FreeFrom(turns: nat -> Turn, bound: nat) {
    forall n {:trigger turns(n)} :: n >= bound ==> !turns(n).busy
  }

  /** One pass from the given trip on: what is left, the next trip, and the calls. */
  ghost function PassRun(v: View, pass: nat, turns: nat -> Turn, turn: nat, bound: nat, mine: seq<bool>)
    : (r: (View, nat, seq<Invocation>))
    requires Sound(v) && FreeFrom(turns, bound)
    ensures Sound(r.0) && |v.live| <= |r.0.live|
    decreases |v.rest| + if turn < bound then bound - turn else 0
  {
    var w := ApplyAll(v, turns(turn).others, mine, false);
    if w.rest == [] then (w, turn, [])
    else if turns(turn).busy then PassRun(w, pass, turns, turn + 1, bound, mine)
    else
      var (k, value) := (First(w), w.values[First(w)]);
      var r := PassRun(Visited(w, pass, turns(turn).callback, mine), pass, turns, turn + 1, bound, mine);
      (r.0, r.1, (if Calls(value, pass) then [Invocation(pass, k, value, turn)] else []) + r.2)
  }

  /** All passes from the given one on: how many there are, and the calls. */
  ghost function PassesRun(v: View, pass: nat, turns: nat -> Turn, turn: nat, bound: nat, mine: seq<bool>)
    : (nat, seq<Invocation>)
    requires Sound(v) && FreeFrom(turns, bound)
    decreases PTHREAD_DESTRUCTOR_ITERATIONS + 1 - pass
  {
    var r := PassRun(v.(rest := v.chain), pass, turns, turn, bound, mine);
    if r.2 == [] || pass > PTHREAD_DESTRUCTOR_ITERATIONS then (pass, r.2)
    else
      var later := PassesRun(r.0, pass + 1, turns, r.1, bound, mine);
      (later.0, r.2 + later.1)
  }

  // ---------------------------------------------------------- deleted keys

  predicate Dead(v: View, k: nat) { k < |v.live| && !v.live[k] }

  ghost predicate NeverCalls(calls: seq<Invocation>, k: nat) {
    forall i :: 0 <= i < |calls| ==> calls[i].key != k
  }

  /** The call's destructor deletes the key. */
  ghost predicate Deletes(turns: nat -> Turn, c: Invocation, k: nat) {
    DeleteKey(k) in turns(c.turn).callback(c.key, c.value)
  }

  ghost predicate SomeDeletes(turns: nat -> Turn, calls: seq<Invocation>, k: nat) {
    exists i :: 0 <= i < |calls| && Deletes(turns, calls[i], k)
  }

  /** No call of the key's destructor comes after one that deletes the key. */
  ghost predicate NoneDeleted(turns: nat -> Turn, calls: seq<Invocation>, k: nat) {
    forall i, j :: 0 <= i < j < |calls| && Deletes(turns, calls[i], k) ==> calls[j].key != k
  }

  lemma NoneDeletedAppend(turns: nat -> Turn, calls: seq<Invocation>, later: seq<Invocation>, k: nat)
    requires NoneDeleted(turns, calls, k) && NoneDeleted(turns, later, k)
    requires SomeDeletes(turns, calls, k) ==> NeverCalls(later, k)
    ensures NoneDeleted(turns, calls + later, k)
    ensures SomeDeletes(turns, calls + later, k) ==> SomeDeletes(turns, calls, k) || SomeDeletes(turns, later, k)
  {
    var all := calls + later;
    hide Deletes;
    forall i, j | 0 <= i < j < |all| && Deletes(turns, all[i], k) ensures all[j].key != k {
      if |calls| <= j {
        assert all[j] == later[j - |calls|];
        if |calls| <= i { assert all[i] == later[i - |calls|]; } else { assert all[i] == calls[i]; }
      }
    }
    if i :| 0 <= i < |all| && Deletes(turns, all[i], k) {
      if |calls| <= i { assert all[i] == later[i - |calls|]; } else { assert all[i] == calls[i]; }
    }
  }

  /** The cases of PassRun, for proofs that unfold it once. */
  lemma PassStep(v: View, pass: nat, turns: nat -> Turn, turn: nat, bound: nat, mine: seq<bool>)
    requires Sound(v) && FreeFrom(turns, bound)
    ensures var w := ApplyAll(v, turns(turn).others, mine, false);
            PassRun(v, pass, turns, turn, bound, mine) ==
              if w.rest == [] then (w, turn, [])
              else if turns(turn).busy then PassRun(w, pass, turns, turn + 1, bound, mine)
              else
                var (k, value) := (First(w), w.values[First(w)]);
                var r := PassRun(Visited(w, pass, turns(turn).callback, mine), pass, turns, turn + 1, bound, mine);
                (r.0, r.1, (if Calls(value, pass) then [Invocation(pass, k, value, turn)] else []) + r.2)
  {
  }

  /** Calls made so far, in front of what a run comes to. */
  ghost function Ahead(calls: seq<Invocation>, r: (View, nat, seq<Invocation>)): (View, nat, seq<Invocation>) {
    (r.0, r.1, calls + r.2)
  }

  lemma AheadNone(r: (View, nat, seq<Invocation>))
    ensures Ahead([], r) == r
  {
    assert [] + r.2 == r.2;
  }

  lemma AheadDone(calls: seq<Invocation>, v: View, turn: nat)
    ensures Ahead(calls, (v, turn, [])) == (v, turn, calls)
  {
    assert calls + [] == calls;
  }

  lemma AheadMore(calls: seq<Invocation>, more: seq<Invocation>, r: (View, nat, seq<Invocation>))
    ensures Ahead(calls, (r.0, r.1, more + r.2)) == Ahead(calls + more, r)
  {
    assert calls + (more + r.2) == (calls + more) + r.2;
  }

  /** The same for the passes. */
  ghost function Then(calls: seq<Invocation>, r: (nat, seq<Invocation>)): (nat, seq<Invocation>) {
    (r.0, calls + r.1)
  }

  lemma ThenNone(r: (nat, seq<Invocation>))
    ensures Then([], r) == r
  {
    assert [] + r.1 == r.1;
  }

  lemma PassesStep(calls: seq<Invocation>, v: View, pass: nat, turns: nat -> Turn, turn: nat, bound: nat,
                   mine: seq<bool>)
    requires Sound(v) && FreeFrom(turns, bound)
    ensures var r := PassRun(v.(rest := v.chain), pass, turns, turn, bound, mine);
            Then(calls, PassesRun(v, pass, turns, turn, bound, mine)) ==
              if r.2 == [] || pass > PTHREAD_DESTRUCTOR_ITERATIONS then (pass, calls + r.2)
              else Then(calls + r.2, PassesRun(r.0, pass + 1, turns, r.1, bound, mine))
  {
    hide PassRun;
    var r := PassRun(v.(rest := v.chain), pass, turns, turn, bound, mine);
    if r.2 != [] && pass <= PTHREAD_DESTRUCTOR_ITERATIONS {
      var later := PassesRun(r.0, pass + 1, turns, r.1, bound, mine);
      assert calls + (r.2 + later.1) == (calls + r.2) + later.1;
    }
  }

  lemma {:induction false} DeadPass(v: View, pass: nat, turns: nat -> Turn, turn: nat, bound: nat, mine: seq<bool>,
                                    k: nat)
    requires Sound(v) && FreeFrom(turns, bound) && Dead(v, k)
    ensures var r := PassRun(v, pass, turns, turn, bound, mine); Dead(r.0, k) && NeverCalls(r.2, k)
    decreases |v.rest| + if turn < bound then bound - turn else 0
  {
    hide PassRun, ApplyAll, Visited;
    PassStep(v, pass, turns, turn, bound, mine);
    var w := ApplyAll(v, turns(turn).others, mine, false);
    if w.rest != [] && turns(turn).busy {
      DeadPass(w, pass, turns, turn + 1, bound, mine, k);
    } else if w.rest != [] {
      DeadPass(Visited(w, pass, turns(turn).callback, mine), pass, turns, turn + 1, bound, mine, k);
      assert w.rest[0] in w.rest;
    }
  }

  lemma {:induction false} DeadPasses(v: View, pass: nat, turns: nat -> Turn, turn: nat, bound: nat, mine: seq<bool>,
                                      k: nat)
    requires Sound(v) && FreeFrom(turns, bound) && Dead(v, k)
    ensures NeverCalls(PassesRun(v, pass, turns, turn, bound, mine).1, k)
    decreases PTHREAD_DESTRUCTOR_ITERATIONS + 1 - pass
  {
    hide PassRun, Sound, FreeFrom;
    SoundAgain(v);
    var w := v.(rest := v.chain);
    DeadPass(w, pass, turns, turn, bound, mine, k);
    var r := PassRun(w, pass, turns, turn, bound, mine);
    if r.2 != [] && pass <= PTHREAD_DESTRUCTOR_ITERATIONS {
      DeadPasses(r.0, pass + 1, turns, r.1, bound, mine, k);
    }
  }

  lemma SoundAgain(v: View)
    requires Sound(v)
    ensures Sound(v.(rest := v.chain))
  {
  }

  /** A script that deletes a key leaves it deleted. */
  lemma {:induction false} ScriptDeletes(v: View, ops: seq<Op>, mine: seq<bool>, own: bool, k: nat)
    requires Sound(v) && k < |v.live| && DeleteKey(k) in ops
    ensures Dead(ApplyAll(v, ops, mine, own), k)
  {
    var front := ops[..|ops| - 1];
    if ops[|ops| - 1] != DeleteKey(k) {
      assert DeleteKey(k) in front;
      ScriptDeletes(v, front, mine, own, k);
    }
  }

  lemma VisitDeletes(w: View, pass: nat, turns: nat -> Turn, turn: nat, mine: seq<bool>, k: nat)
    requires Sound(w) && w.rest != [] && k < |w.live|
    ensures var value := w.values[First(w)];
            Calls(value, pass) && Deletes(turns, Invocation(pass, First(w), value, turn), k) ==>
              Dead(Visited(w, pass, turns(turn).callback, mine), k)
  {
    var (c, value) := (First(w), w.values[First(w)]);
    if Calls(value, pass) && DeleteKey(k) in turns(turn).callback(c, value) {
      ScriptDeletes(Claimed(w), turns(turn).callback(c, value), mine, true, k);
    }
  }

  lemma {:induction false} DeletedInPass(v: View, pass: nat, turns: nat -> Turn, turn: nat, bound: nat,
                                         mine: seq<bool>, k: nat)
    requires Sound(v) && FreeFrom(turns, bound) && k < |v.live|
    ensures var r := PassRun(v, pass, turns, turn, bound, mine);
            NoneDeleted(turns, r.2, k) && (SomeDeletes(turns, r.2, k) ==> Dead(r.0, k))
    decreases |v.rest| + if turn < bound then bound - turn else 0
  {
    hide PassRun, ApplyAll, Visited, Deletes, NeverCalls, Calls;
    PassStep(v, pass, turns, turn, bound, mine);
    var w := ApplyAll(v, turns(turn).others, mine, false);
    if w.rest != [] && turns(turn).busy {
      DeletedInPass(w, pass, turns, turn + 1, bound, mine, k);
    } else if w.rest != [] {
      var x := Visited(w, pass, turns(turn).callback, mine);
      DeletedInPass(x, pass, turns, turn + 1, bound, mine, k);
      VisitDeletes(w, pass, turns, turn, mine, k);
      var c := Invocation(pass, First(w), w.values[First(w)], turn);
      var first := if Calls(c.value, pass) then [c] else [];
      if Dead(x, k) { DeadPass(x, pass, turns, turn + 1, bound, mine, k); }
      hide Sound;
      NoneDeletedAppend(turns, first, PassRun(x, pass, turns, turn + 1, bound, mine).2, k);
    }
  }

  /** A destructor that deletes a key keeps that key's own destructor from being
  called, in the same pass and in all later ones. */
  lemma {:induction false} DeletedNotCalled(v: View, pass: nat, turns: nat -> Turn, turn: nat, bound: nat,
                                            mine: seq<bool>, k: nat)
    requires Sound(v) && FreeFrom(turns, bound) && k < |v.live|
    ensures NoneDeleted(turns, PassesRun(v, pass, turns, turn, bound, mine).1, k)
    decreases PTHREAD_DESTRUCTOR_ITERATIONS + 1 - pass
  {
    hide PassRun, Sound, FreeFrom, NoneDeleted, SomeDeletes, NeverCalls, Dead;
    SoundAgain(v);
    var w := v.(rest := v.chain);
    DeletedInPass(w, pass, turns, turn, bound, mine, k);
    var r := PassRun(w, pass, turns, turn, bound, mine);
    if r.2 != [] && pass <= PTHREAD_DESTRUCTOR_ITERATIONS {
      DeletedNotCalled(r.0, pass + 1, turns, r.1, bound, mine, k);
      if SomeDeletes(turns, r.2, k) { DeadPasses(r.0, pass + 1, turns, r.1, bound, mine, k); }
      NoneDeletedAppend(turns, r.2, PassesRun(r.0, pass + 1, turns, r.1, bound, mine).1, k);
    }
  }

  /** No call of the key's destructor on the given trip or a later one. */
  ghost predicate NoneSince(calls: seq<Invocation>, k: nat, n: nat) {
    forall i :: 0 <= i < |calls| && n <= calls[i].turn ==> calls[i].key != k
  }

  lemma {:induction false} OthersInPass(v: View, pass: nat, turns: nat -> Turn, turn: nat, bound: nat, mine: seq<bool>,
                                        k: nat, n: nat)
    requires Sound(v) && FreeFrom(turns, bound) && k < |v.live| && turn <= n && DeleteKey(k) in turns(n).others
    ensures var r := PassRun(v, pass, turns, turn, bound, mine);
            NoneSince(r.2, k, n) && (n < r.1 ==> Dead(r.0, k))
    decreases |v.rest| + if turn < bound then bound - turn else 0
  {
    hide PassRun, ApplyAll, Visited, Calls;
    PassStep(v, pass, turns, turn, bound, mine);
    var w := ApplyAll(v, turns(turn).others, mine, false);
    if turn == n {
      ScriptDeletes(v, turns(n).others, mine, false, k);
      if w.rest != [] && turns(turn).busy {
        DeadPass(w, pass, turns, turn + 1, bound, mine, k);
      } else if w.rest != [] {
        DeadPass(Visited(w, pass, turns(turn).callback, mine), pass, turns, turn + 1, bound, mine, k);
        assert w.rest[0] in w.rest;
      }
    } else if w.rest != [] && turns(turn).busy {
      OthersInPass(w, pass, turns, turn + 1, bound, mine, k, n);
    } else if w.rest != [] {
      OthersInPass(Visited(w, pass, turns(turn).callback, mine), pass, turns, turn + 1, bound, mine, k, n);
    }
  }

  /** A key that another thread deletes on some trip is not called on that trip or a
  later one. */
  lemma {:induction false} DeletedByOthers(v: View, pass: nat, turns: nat -> Turn, turn: nat, bound: nat,
                                           mine: seq<bool>, k: nat, n: nat)
    requires Sound(v) && FreeFrom(turns, bound) && k < |v.live| && turn <= n && DeleteKey(k) in turns(n).others
    ensures NoneSince(PassesRun(v, pass, turns, turn, bound, mine).1, k, n)
    decreases PTHREAD_DESTRUCTOR_ITERATIONS + 1 - pass
  {
    hide PassRun, Sound, FreeFrom, Dead;
    SoundAgain(v);
    OthersInPass(v.(rest := v.chain), pass, turns, turn, bound, mine, k, n);
    var r := PassRun(v.(rest := v.chain), pass, turns, turn, bound, mine);
    if r.2 != [] && pass <= PTHREAD_DESTRUCTOR_ITERATIONS {
      if n < r.1 {
        DeadPasses(r.0, pass + 1, turns, r.1, bound, mine, k);
      } else {
        DeletedByOthers(r.0, pass + 1, turns, r.1, bound, mine, k, n);
      }
    }
  }

  // -------------------------------------------------------------- an example

  /** Two keys, the second of which has a destructor that deletes the first. */
  function DeletesFirst(): Turn {
    Turn([], false, (k: nat, value: nat) => if k == 1 then [DeleteKey(0)] else [])
  }

  const TWO_KEYS: seq<Op> := [CreateKey(true), CreateKey(true), SetValue(0, 0, 1), SetValue(0, 1, 1)]

  const TWO_VALUES: View := View([true, true], [true, true], [1, 1], [1, 0], [])

  function Made(n: nat): View {
    if n == 0 then View([], [], [], [], [])
    else if n == 1 then View([true], [true], [0], [], [])
    else if n == 2 then View([true, true], [true, true], [0, 0], [], [])
    else if n == 3 then View([true, true], [true, true], [1, 0], [0], [])
    else TWO_VALUES
  }

  lemma MadeStep(n: nat)
    requires n < 4
    ensures Sound(Made(n)) && Apply(Made(n), TWO_KEYS[n], [true], true) == Made(n + 1)
  {
  }

  lemma TwoKeys()
    ensures Sound(Made(0)) && ApplyAll(Made(0), TWO_KEYS, [true], true) == TWO_VALUES
  {
    var o := TWO_KEYS;
    assert o[..0] == [] && o[..4] == o;
    for n := 0 to 4
      invariant Sound(Made(0)) && ApplyAll(Made(0), o[..n], [true], true) == Made(n)
    {
      MadeStep(n);
      OneMore(Made(0), o, n);
    }
  }

  lemma OneMore(v: View, ops: seq<Op>, n: nat)
    requires Sound(v) && n < |ops|
    ensures ApplyAll(v, ops[..n + 1], [true], true) == Apply(ApplyAll(v, ops[..n], [true], true), ops[n], [true], true)
  {
    assert ops[..n + 1][..n] == ops[..n];
  }

  /** Only the destructor of the second key is called. */
  lemma OneCall(turns: nat -> Turn)
    requires forall n :: turns(n) == DeletesFirst()
    ensures Sound(TWO_VALUES) && FreeFrom(turns, 0)
    ensures PassesRun(TWO_VALUES, 1, turns, 0, 0, [true]) == (2, [Invocation(1, 1, 1, 0)])
  {
    var v := TWO_VALUES;
    var v1 := v.(rest := v.chain);
    var v2 := View([true, true], [false, true], [1, 0], [1], []);
    FirstPass(turns, v1, v2);
    SecondPass(turns, v2.(rest := v2.chain));
    hide PassRun;
    assert PassesRun(v2, 2, turns, 1, 0, [true]) == (2, []);
  }

  lemma FirstPass(turns: nat -> Turn, v1: View, v2: View)
    requires (forall n :: turns(n) == DeletesFirst()) && v1 == TWO_VALUES.(rest := [1, 0])
    requires v2 == View([true, true], [false, true], [1, 0], [1], [])
    ensures Sound(v1) && FreeFrom(turns, 0) && PassRun(v1, 1, turns, 0, 0, [true]) == (v2, 1, [Invocation(1, 1, 1, 0)])
  {
    var w := v1.(rest := [0], values := [1, 0]);
    var ops := [DeleteKey(0)];
    assert ops[..0] == [];
    assert Drop([1, 0], 0) == [1] && Drop([0], 0) == [] by { assert [1, 0][1..] == [0] && [0][1..] == []; }
    assert Sound(w) && ApplyAll(w, ops, [true], true) == v2;
    assert v1.rest[1..] == [0] && v1.values[1 := 0] == [1, 0];
    assert Visited(v1, 1, turns(0).callback, [true]) == v2;
    assert First(v1) == 1 && ApplyAll(v1, [], [true], false) == v1 && ApplyAll(v2, [], [true], false) == v2;
    PassStep(v1, 1, turns, 0, 0, [true]);
    PassStep(v2, 1, turns, 1, 0, [true]);
    hide PassRun, ApplyAll, Visited;
    assert turns(0).others == [] && turns(1).others == [];
    assert PassRun(v2, 1, turns, 1, 0, [true]) == (v2, 1, []);
    assert [Invocation(1, 1, 1, 0)] + [] == [Invocation(1, 1, 1, 0)];
  }

  lemma SecondPass(turns: nat -> Turn, v: View)
    requires (forall n :: turns(n) == DeletesFirst()) && v == View([true, true], [false, true], [1, 0], [1], [1])
    ensures Sound(v) && FreeFrom(turns, 0) && PassRun(v, 2, turns, 1, 0, [true]).2 == []
  {
    var w := Visited(v, 2, turns(1).callback, [true]);
    assert v.rest[1..] == [];
    PassStep(v, 2, turns, 1, 0, [true]);
    PassStep(w, 2, turns, 2, 0, [true]);
  }
}
