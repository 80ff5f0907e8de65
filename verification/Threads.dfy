/** Sums of a per-thread weight over all threads, and runs of a step system.

The protocols below are step systems over a sequence of per-thread program
counters.  Their counting invariants are equations between shared counters and
sums over the threads; their progress claims come from a weight that every
continuing step lowers. */
module Threads {

  datatype Option<+T> = None | Some(value: T)

  ghost function Sum<T>(s: seq<T>, w: T -> int): int {
    if s == [] then 0 else w(s[0]) + Sum(s[1..], w)
  }

  /** One thread moves: the sum changes by the difference of its weights. */
  lemma {:induction false} SumUpdate<T>(s: seq<T>, i: nat, x: T, w: T -> int)
    requires i < |s|
    ensures Sum(s[i := x], w) == Sum(s, w) - w(s[i]) + w(x)
  {
    if i == 0 {
      assert s[0 := x][1..] == s[1..];
    } else {
      assert s[i := x][1..] == s[1..][i - 1 := x];
      SumUpdate(s[1..], i - 1, x, w);
    }
  }

  ghost predicate NonNegative<T(!new)>(w: T -> int) {
    forall x :: 0 <= w(x)
  }

  /** With non-negative weights, every entry is bounded by the sum. */
  lemma {:induction false} SumBounds<T(!new)>(s: seq<T>, w: T -> int)
    requires NonNegative(w)
    ensures 0 <= Sum(s, w)
    ensures forall i :: 0 <= i < |s| ==> w(s[i]) <= Sum(s, w)
  {
    if s != [] {
      SumBounds(s[1..], w);
      forall i | 0 <= i < |s| ensures w(s[i]) <= Sum(s, w) {
        if i > 0 { assert s[i] == s[1..][i - 1]; }
      }
    }
  }

  /** An entry that accounts for the whole sum leaves nothing for the others. */
  lemma {:induction false} SumOnly<T(!new)>(s: seq<T>, i: nat, w: T -> int)
    requires NonNegative(w) && i < |s| && Sum(s, w) <= w(s[i])
    ensures forall j :: 0 <= j < |s| && j != i ==> w(s[j]) == 0
  {
    forall j | 0 <= j < |s| && j != i ensures w(s[j]) == 0 {
      SumPair(s, i, j, w);
    }
  }

  lemma {:induction false} SumPair<T(!new)>(s: seq<T>, i: nat, j: nat, w: T -> int)
    requires NonNegative(w) && i < |s| && j < |s| && i != j
    ensures w(s[i]) + w(s[j]) <= Sum(s, w)
  {
    SumBounds(s[1..], w);
    if i == 0 {
      assert s[j] == s[1..][j - 1];
    } else if j == 0 {
      assert s[i] == s[1..][i - 1];
    } else {
      SumPair(s[1..], i - 1, j - 1, w);
    }
  }

  /** A positive sum has a witness. */
  lemma {:induction false} SumWitness<T>(s: seq<T>, w: T -> int) returns (i: nat)
    requires 0 < Sum(s, w)
    ensures i < |s| && 0 < w(s[i])
  {
    if 0 < w(s[0]) {
      i := 0;
    } else {
      i := SumWitness(s[1..], w);
      i := i + 1;
    }
  }

  /** Pointwise comparison of two weights carries over to the sums. */
  lemma {:induction false} SumMonotone<T>(s: seq<T>, v: T -> int, w: T -> int)
    requires forall i :: 0 <= i < |s| ==> v(s[i]) <= w(s[i])
    ensures Sum(s, v) <= Sum(s, w)
  {
    if s != [] {
      forall i | 0 <= i < |s[1..]| ensures v(s[1..][i]) <= w(s[1..][i]) {
        assert s[1..][i] == s[i + 1];
      }
      SumMonotone(s[1..], v, w);
    }
  }

  /** A weight bounded by c on every thread sums to at most c per thread. */
  lemma {:induction false} SumAtMost<T>(s: seq<T>, w: T -> int, c: nat)
    requires forall i :: 0 <= i < |s| ==> w(s[i]) <= c
    ensures Sum(s, w) <= c * |s|
  {
    if s != [] {
      forall i | 0 <= i < |s[1..]| ensures w(s[1..][i]) <= c {
        assert s[1..][i] == s[i + 1];
      }
      SumAtMost(s[1..], w, c);
    }
  }

  /** If only thread i carries weight, the sum is its weight. */
  lemma {:induction false} SumSingle<T>(s: seq<T>, i: nat, w: T -> int)
    requires i < |s| && forall j :: 0 <= j < |s| && j != i ==> w(s[j]) == 0
    ensures Sum(s, w) == w(s[i])
  {
    forall j | 0 <= j < |s[1..]| && j + 1 != i ensures w(s[1..][j]) == 0 {
      assert s[1..][j] == s[j + 1];
    }
    if i == 0 {
      SumZero(s[1..], w);
    } else {
      SumSingle(s[1..], i - 1, w);
    }
  }

  /** If no thread carries weight, the sum is zero. */
  lemma {:induction false} SumZero<T>(s: seq<T>, w: T -> int)
    requires forall i :: 0 <= i < |s| ==> w(s[i]) == 0
    ensures Sum(s, w) == 0
  {
    if s != [] {
      forall i | 0 <= i < |s[1..]| ensures w(s[1..][i]) == 0 {
        assert s[1..][i] == s[i + 1];
      }
      SumZero(s[1..], w);
    }
  }

  // ------------------------------------------------------------------ runs

  /** A finite sequence of states in which each one follows from the last. */
  ghost predicate Path<S(!new)>(next: (S, S) -> bool, run: seq<S>) {
    && run != []
    && forall i :: 0 <= i < |run| - 1 ==> next(run[i], run[i + 1])
  }

  ghost predicate Preserves<S(!new)>(inv: S -> bool, next: (S, S) -> bool) {
    forall s, s' :: inv(s) && next(s, s') ==> inv(s')
  }

  ghost predicate Lowers<S(!new)>(inv: S -> bool, next: (S, S) -> bool, m: S -> int) {
    forall s, s' :: inv(s) && next(s, s') ==> 0 <= m(s') < m(s)
  }

  ghost predicate Reachable<S(!new)>(init: S -> bool, next: (S, S) -> bool, s: S) {
    exists run :: Path(next, run) && init(run[0]) && run[|run| - 1] == s
  }

  ghost predicate Stuck<S(!new)>(next: (S, S) -> bool, s: S) {
    forall s' :: !next(s, s')
  }

  /** A preserved predicate that holds at the start holds all along a run. */
  lemma {:induction false} InvariantAlongRun<S(!new)>(inv: S -> bool, next: (S, S) -> bool, run: seq<S>)
    requires Preserves(inv, next) && Path(next, run) && inv(run[0])
    ensures forall i :: 0 <= i < |run| ==> inv(run[i])
  {
    if |run| > 1 {
      var front := run[..|run| - 1];
      forall i | 0 <= i < |front| - 1 ensures next(front[i], front[i + 1]) {
        assert next(run[i], run[i + 1]);
      }
      InvariantAlongRun(inv, next, front);
      assert inv(front[|front| - 1]) && next(run[|run| - 2], run[|run| - 1]);
    }
  }

  /** What can only be left through a gate is not left without passing it. */
  lemma {:induction false} LeavesThrough<S(!new)>(next: (S, S) -> bool, inside: S -> bool, gate: S -> bool, run: seq<S>)
    requires Path(next, run) && inside(run[0]) && !inside(run[|run| - 1])
    requires forall s, s' :: next(s, s') && inside(s) ==> inside(s') || gate(s')
    ensures exists i :: 0 <= i < |run| && gate(run[i])
  {
    assert next(run[0], run[1]);
    if !gate(run[1]) {
      var rest := run[1..];
      forall i | 0 <= i < |rest| - 1 ensures next(rest[i], rest[i + 1]) {
        assert next(run[i + 1], run[i + 2]);
      }
      LeavesThrough(next, inside, gate, rest);
      var i :| 0 <= i < |rest| && gate(rest[i]);
      assert gate(run[i + 1]);
    }
  }

  lemma ReachableInvariant<S(!new)>(init: S -> bool, inv: S -> bool, next: (S, S) -> bool, s: S)
    requires Preserves(inv, next) && (forall s0 :: init(s0) ==> inv(s0))
    requires Reachable(init, next, s)
    ensures inv(s)
  {
    var run :| Path(next, run) && init(run[0]) && run[|run| - 1] == s;
    InvariantAlongRun(inv, next, run);
  }

  /** Two runs, the second of which goes on from the first. */
  lemma PathJoin<S(!new)>(next: (S, S) -> bool, a: seq<S>, b: seq<S>)
    requires Path(next, a) && Path(next, b) && next(a[|a| - 1], b[0])
    ensures Path(next, a + b)
  {
    var run := a + b;
    forall i | 0 <= i < |run| - 1 ensures next(run[i], run[i + 1]) {
      if i >= |a| { assert next(b[i - |a|], b[i - |a| + 1]); }
    }
  }

  lemma OneMore<S(!new)>(init: S -> bool, next: (S, S) -> bool, s: S, s': S)
    requires Reachable(init, next, s) && next(s, s')
    ensures Reachable(init, next, s')
  {
    var run :| Path(next, run) && init(run[0]) && run[|run| - 1] == s;
    PathJoin(next, run, [s']);
    assert (run + [s'])[0] == run[0];
  }

  /** A run whose every step lowers the measure cannot be longer than the measure. */
  lemma {:induction false} RunBound<S(!new)>(inv: S -> bool, next: (S, S) -> bool, m: S -> int, run: seq<S>)
    requires Preserves(inv, next) && Lowers(inv, next, m) && Path(next, run) && inv(run[0]) && 0 <= m(run[0])
    ensures |run| - 1 <= m(run[0])
  {
    if |run| > 1 {
      assert next(run[0], run[1]);
      var rest := run[1..];
      forall i | 0 <= i < |rest| - 1 ensures next(rest[i], rest[i + 1]) {
        assert next(run[i + 1], run[i + 2]);
      }
      RunBound(inv, next, m, rest);
    }
  }

  /** How many steps of a run satisfy hit. */
  ghost function Count<S(!new)>(hit: (S, S) -> bool, run: seq<S>): nat {
    if |run| < 2 then 0
    else Count(hit, run[..|run| - 1]) + if hit(run[|run| - 2], run[|run| - 1]) then 1 else 0
  }

  /** The balance grows by one on the steps that satisfy hit and stays on all others. */
  ghost predicate Tallies<S(!new)>(inv: S -> bool, next: (S, S) -> bool, hit: (S, S) -> bool, balance: S -> int) {
    forall s, s' :: inv(s) && next(s, s') ==> balance(s') == balance(s) + if hit(s, s') then 1 else 0
  }

  lemma {:induction false} CountIsBalance<S(!new)>(inv: S -> bool, next: (S, S) -> bool, hit: (S, S) -> bool,
                                                   balance: S -> int, run: seq<S>)
    requires Preserves(inv, next) && Tallies(inv, next, hit, balance) && Path(next, run) && inv(run[0])
    ensures Count(hit, run) == balance(run[|run| - 1]) - balance(run[0])
  {
    if |run| > 1 {
      var front := run[..|run| - 1];
      forall i | 0 <= i < |front| - 1 ensures next(front[i], front[i + 1]) {
        assert next(run[i], run[i + 1]);
      }
      CountIsBalance(inv, next, hit, balance, front);
      InvariantAlongRun(inv, next, run);
      assert next(run[|run| - 2], run[|run| - 1]);
    }
  }

  /** From every state some run of lowering steps ends in a stuck state. */
  lemma {:induction false} ReachStuck<S(!new)>(inv: S -> bool, next: (S, S) -> bool, m: S -> int,
                                        s: S) returns (run: seq<S>)
    requires Preserves(inv, next) && Lowers(inv, next, m) && inv(s)
    ensures Path(next, run) && run[0] == s && inv(run[|run| - 1]) && Stuck(next, run[|run| - 1])
    decreases m(s)
  {
    if Stuck(next, s) {
      run := [s];
    } else {
      var s' :| next(s, s');
      var rest := ReachStuck(inv, next, m, s');
      run := [s] + rest;
      forall i | 0 <= i < |run| - 1 ensures next(run[i], run[i + 1]) {
        if i > 0 { assert run[i] == rest[i - 1] && run[i + 1] == rest[i]; }
      }
    }
  }

  /** Some run of next leads from s to a quiet state, no run is longer than the
  measure of s, and none stops before it is quiet. */
  ghost predicate Settles<S(!new)>(next: (S, S) -> bool, m: S -> int, quiet: S -> bool, s: S) {
    && (exists run :: Path(next, run) && run[0] == s && quiet(run[|run| - 1]))
    && (forall run :: Path(next, run) && run[0] == s ==>
          |run| - 1 <= m(s) && (quiet(run[|run| - 1]) || !Stuck(next, run[|run| - 1])))
  }

  lemma Settle<S(!new)>(inv: S -> bool, next: (S, S) -> bool, m: S -> int, quiet: S -> bool, s: S)
    requires Preserves(inv, next) && Lowers(inv, next, m) && inv(s) && 0 <= m(s)
    requires forall s0 :: inv(s0) && Stuck(next, s0) ==> quiet(s0)
    ensures Settles(next, m, quiet, s)
  {
    var run := ReachStuck(inv, next, m, s);
    forall r | Path(next, r) && r[0] == s
      ensures |r| - 1 <= m(s) && (quiet(r[|r| - 1]) || !Stuck(next, r[|r| - 1]))
    {
      RunBound(inv, next, m, r);
      InvariantAlongRun(inv, next, r);
    }
  }
}
