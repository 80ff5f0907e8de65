/** The grid of thread/key associations of ptw32_tkAssocCreate.c,
ptw32_tkAssocDestroy.c, pthread_setspecific.c and pthread_key_delete.c, and the
destructor passes of ptw32_callUserDestroyRoutines.c that walk a thread's chain
while callbacks and other threads insert into it and delete from it. */
module KeyGrid {
  import opened KeyScripts

  class KeyRec {
    const number: nat            // how calls name the key
    const destructor: bool       // destructor != NULL
    var threads: Assoc?          // head of the row
    var live: bool               // created and not yet deleted

    constructor (number: nat, destructor: bool)
      ensures this.number == number && this.destructor == destructor && threads == null && live
    {
      this.number, this.destructor, threads, live := number, destructor, null, true;
    }
  }

  class ThreadRec {
    var keys: Assoc?             // head of the column
    var nextAssoc: Assoc?        // where the destructor pass goes on
    var tls: map<KeyRec, nat>    // the value stored for each key; absent or 0 is NULL

    constructor ()
      ensures keys == null && nextAssoc == null && tls == map[]
    {
      keys, nextAssoc, tls := null, null, map[];
    }
  }

  class Assoc {
    const thread: ThreadRec
    const key: KeyRec
    var nextKey: Assoc?
    var prevKey: Assoc?
    var nextThread: Assoc?
    var prevThread: Assoc?

    constructor (thread: ThreadRec, key: KeyRec)
      ensures this.thread == thread && this.key == key
      ensures nextKey == null && prevKey == null && nextThread == null && prevThread == null
    {
      this.thread, this.key := thread, key;
      nextKey, prevKey, nextThread, prevThread := null, null, null, null;
    }
  }

  function Value(tls: map<KeyRec, nat>, k: KeyRec): nat {
    if k in tls then tls[k] else 0
  }

  // ------------------------------------------------- one doubly linked chain

  ghost function At(c: seq<Assoc>, i: int): Assoc? {
    if 0 <= i < |c| then c[i] else null
  }

  ghost predicate Distinct(c: seq<Assoc>) {
    forall i, j :: 0 <= i < j < |c| ==> c[i] != c[j]
  }

  /** The chain of thread t, linked through nextKey and prevKey; nextAssoc points
  into it or is null. */
  ghost predicate Column(t: ThreadRec, c: seq<Assoc>)
    reads t`keys, t`nextAssoc, (set a | a in c)`nextKey, (set a | a in c)`prevKey
  {
    && Distinct(c) && (t.nextAssoc == null || t.nextAssoc in c)
    && (if c == [] then t.keys == null
        else t.keys == c[0] && c[0].prevKey == null && c[|c| - 1].nextKey == null)
    && (forall i, j :: 0 <= i < j < |c| && j == i + 1 ==> c[i].nextKey == c[j] && c[j].prevKey == c[i])
  }

  /** The chain of key k, linked through nextThread and prevThread. */
  ghost predicate Row(k: KeyRec, r: seq<Assoc>)
    reads k`threads, (set a | a in r)`nextThread, (set a | a in r)`prevThread
  {
    && Distinct(r)
    && (if r == [] then k.threads == null
        else k.threads == r[0] && r[0].prevThread == null && r[|r| - 1].nextThread == null)
    && (forall i, j :: 0 <= i < j < |r| && j == i + 1 ==> r[i].nextThread == r[j] && r[j].prevThread == r[i])
  }

  lemma EmptyRow(k: KeyRec)
    requires k.threads == null
    ensures Row(k, [])
  {
  }

  ghost function Pushed(a: Assoc, c: seq<Assoc>): seq<Assoc> { [a] + c }

  /** The chain without its element at i. */
  ghost function Cut(c: seq<Assoc>, i: nat): (r: seq<Assoc>)
    requires i < |c|
    ensures |r| == |c| - 1 && forall j :: 0 <= j < |r| ==> r[j] == if j < i then c[j] else c[j + 1]
  {
    c[..i] + c[i + 1..]
  }

  ghost function Without(c: seq<Assoc>, a: Assoc?): seq<Assoc> {
    if c == [] then [] else if c[0] == a then c[1..] else [c[0]] + Without(c[1..], a)
  }

  /** The part of the chain from a on; nothing if a is null. */
  ghost function From(c: seq<Assoc>, a: Assoc?): seq<Assoc> {
    if c == [] || c[0] == a then c else From(c[1..], a)
  }

  lemma {:induction false} WithoutAt(c: seq<Assoc>, i: nat)
    requires i < |c| && c[i] !in c[..i]
    ensures Without(c, c[i]) == Cut(c, i)
  {
    if i > 0 {
      assert c[0] in c[..i];
      assert c[1..][..i - 1] == c[..i][1..];
      WithoutAt(c[1..], i - 1);
      assert [c[0]] + Cut(c[1..], i - 1) == Cut(c, i);
    }
  }

  lemma WithoutHead(a: Assoc, c: seq<Assoc>)
    ensures Without([a] + c, a) == c
  {
    assert ([a] + c)[1..] == c;
  }

  lemma {:induction false} WithoutOther(c: seq<Assoc>, a: Assoc?)
    requires a !in c
    ensures Without(c, a) == c
  {
    if c != [] {
      WithoutOther(c[1..], a);
      assert c == [c[0]] + c[1..];
    }
  }

  ghost function WithoutKey(c: seq<Assoc>, k: KeyRec): seq<Assoc> {
    if c == [] then [] else if c[0].key == k then WithoutKey(c[1..], k) else [c[0]] + WithoutKey(c[1..], k)
  }

  lemma {:induction false} WithoutKeyWithout(c: seq<Assoc>, a: Assoc)
    ensures WithoutKey(Without(c, a), a.key) == WithoutKey(c, a.key)
  {
    if c != [] && c[0] != a {
      WithoutKeyWithout(c[1..], a);
      assert ([c[0]] + Without(c[1..], a))[1..] == Without(c[1..], a);
    }
  }

  lemma {:induction false} WithoutKeyOther(c: seq<Assoc>, k: KeyRec)
    requires forall a :: a in c ==> a.key != k
    ensures WithoutKey(c, k) == c
  {
    if c != [] {
      WithoutKeyOther(c[1..], k);
      assert c == [c[0]] + c[1..];
    }
  }

  lemma {:induction false} WithoutKeyMembers(c: seq<Assoc>, k: KeyRec)
    ensures |WithoutKey(c, k)| <= |c| && forall a :: a in WithoutKey(c, k) ==> a in c
  {
    if c != [] {
      WithoutKeyMembers(c[1..], k);
    }
  }

  lemma {:induction false} FromAt(c: seq<Assoc>, i: nat)
    requires Distinct(c) && i <= |c|
    ensures From(c, At(c, i)) == c[i..]
  {
    if i > 0 {
      FromAt(c[1..], i - 1);
    }
  }

  lemma {:induction false} FromMembers(c: seq<Assoc>, a: Assoc?)
    ensures forall b :: b in From(c, a) ==> b in c
  {
    if c != [] && c[0] != a {
      FromMembers(c[1..], a);
    }
  }

  /** Removing an element, and moving the iterator on if it stood there, removes
  that element from the part still to be visited. */
  lemma {:induction false} FromWithout(c: seq<Assoc>, i: nat, a: Assoc?)
    requires Distinct(c) && i < |c|
    ensures From(Without(c, c[i]), if a == c[i] then At(c, i + 1) else a) == Without(From(c, a), c[i])
    ensures a == null || a in c ==>
      var a' := if a == c[i] then At(c, i + 1) else a; a' == null || a' in Without(c, c[i])
  {
    if i > 0 {
      var w := Without(c[1..], c[i]);
      assert ([c[0]] + w)[1..] == w;
      if a != c[0] { FromWithout(c[1..], i - 1, a); }
    } else if a != c[0] {
      FromMembers(c[1..], a);
      WithoutOther(From(c[1..], a), c[0]);
    }
  }

  lemma FromPushed(c: seq<Assoc>, x: Assoc, a: Assoc?)
    requires a != x
    ensures From(Pushed(x, c), a) == From(c, a)
  {
    assert ([x] + c)[1..] == c;
  }

  /** The same for the chain d of any thread, whose iterator only moves if it
  stood on the removed element. */
  lemma FromDestroy(d: seq<Assoc>, c: seq<Assoc>, i: nat, a: Assoc?)
    requires Distinct(c) && i < |c| && (a == null || a in d) && (d == c || c[i] !in d)
    ensures From(Without(d, c[i]), if a == c[i] then At(c, i + 1) else a) == Without(From(d, a), c[i])
  {
    if d == c {
      FromWithout(c, i, a);
    } else {
      FromMembers(d, a);
      WithoutOther(d, c[i]);
      WithoutOther(From(d, a), c[i]);
    }
  }

  lemma CutMembers(c: seq<Assoc>, i: nat) returns (w: seq<Assoc>)
    requires Distinct(c) && i < |c|
    ensures w == Cut(c, i) && |w| == |c| - 1
    ensures forall j {:trigger w[j]} :: 0 <= j < |w| ==> w[j] == if j < i then c[j] else c[j + 1]
    ensures Distinct(w) && forall a :: a in c && a != c[i] ==> a in w
  {
    w := Cut(c, i);
    forall a | a in c && a != c[i] ensures a in w {
      var j :| 0 <= j < |c| && c[j] == a;
      assert w[if j < i then j else j - 1] == a;
    }
  }

  /** The thread half of ptw32_tkAssocDestroy. */
  method UnlinkFromThread(assoc: Assoc, ghost c: seq<Assoc>, ghost i: nat)
    requires Column(assoc.thread, c) && i < |c| && c[i] == assoc
    modifies assoc.thread`keys, assoc.thread`nextAssoc, (set a | a in c)`nextKey, (set a | a in c)`prevKey
    ensures Column(assoc.thread, Cut(c, i))
    ensures assoc.thread.nextAssoc
         == if old(assoc.thread.nextAssoc) == assoc then At(c, i + 1) else old(assoc.thread.nextAssoc)
  {
    hide Cut;
    ghost var w := CutMembers(c, i);
    var prev, next := assoc.prevKey, assoc.nextKey;
    assert prev == (if i == 0 then null else c[i - 1]) && next == (if i == |c| - 1 then null else c[i + 1]);
    if prev != null {
      prev.nextKey := next;
    }
    if next != null {
      next.prevKey := prev;
    }
    if assoc.thread.keys == assoc {
      assoc.thread.keys := next;
    }
    if assoc.thread.nextAssoc == assoc {
      assoc.thread.nextAssoc := next;
    }
    assert Column(assoc.thread, w);
  }

  /** The key half of ptw32_tkAssocDestroy. */
  method UnlinkFromKey(assoc: Assoc, ghost r: seq<Assoc>, ghost i: nat)
    requires Row(assoc.key, r) && i < |r| && r[i] == assoc
    modifies assoc.key`threads, (set a | a in r)`nextThread, (set a | a in r)`prevThread
    ensures Row(assoc.key, Cut(r, i))
  {
    hide Cut;
    ghost var w := CutMembers(r, i);
    var prev, next := assoc.prevThread, assoc.nextThread;
    assert prev == (if i == 0 then null else r[i - 1]) && next == (if i == |r| - 1 then null else r[i + 1]);
    if prev != null {
      prev.nextThread := next;
    }
    if next != null {
      next.prevThread := prev;
    }
    if assoc.key.threads == assoc {
      assoc.key.threads := next;
    }
    assert Row(assoc.key, w);
  }

  /** The key half of ptw32_tkAssocCreate. */
  method LinkToKey(assoc: Assoc, ghost r: seq<Assoc>)
    requires Row(assoc.key, r) && assoc !in r
    modifies assoc.key`threads, assoc`nextThread, assoc`prevThread, (set a | a in r)`prevThread
    ensures Row(assoc.key, Pushed(assoc, r))
  {
    assoc.prevThread := null;
    assoc.nextThread := assoc.key.threads;
    if assoc.nextThread != null {
      assoc.nextThread.prevThread := assoc;
    }
    assoc.key.threads := assoc;
  }

  /** The thread half of ptw32_tkAssocCreate. */
  method LinkToThread(assoc: Assoc, ghost c: seq<Assoc>)
    requires Column(assoc.thread, c) && assoc !in c
    modifies assoc.thread`keys, assoc`nextKey, assoc`prevKey, (set a | a in c)`prevKey
    ensures Column(assoc.thread, Pushed(assoc, c))
  {
    assoc.prevKey := null;
    assoc.nextKey := assoc.thread.keys;
    if assoc.nextKey != null {
      assoc.nextKey.prevKey := assoc;
    }
    assoc.thread.keys := assoc;
  }

  method Unlink(assoc: Assoc, ghost c: seq<Assoc>, ghost i: nat, ghost r: seq<Assoc>, ghost j: nat)
    requires Column(assoc.thread, c) && i < |c| && c[i] == assoc
    requires Row(assoc.key, r) && j < |r| && r[j] == assoc
    modifies assoc.thread`keys, assoc.thread`nextAssoc, (set a | a in c)`nextKey, (set a | a in c)`prevKey
    modifies assoc.key`threads, (set a | a in r)`nextThread, (set a | a in r)`prevThread
    ensures Column(assoc.thread, Cut(c, i)) && Row(assoc.key, Cut(r, j))
    ensures assoc.thread.nextAssoc
         == if old(assoc.thread.nextAssoc) == assoc then At(c, i + 1) else old(assoc.thread.nextAssoc)
  {
    hide Column, Row, Cut;
    ghost var w := Cut(c, i);
    UnlinkFromThread(assoc, c, i);
    assert Column(assoc.thread, w);
    UnlinkFromKey(assoc, r, j);
    assert Column(assoc.thread, w);
  }

  method Link(assoc: Assoc, ghost c: seq<Assoc>, ghost r: seq<Assoc>)
    requires Column(assoc.thread, c) && Row(assoc.key, r) && assoc !in c && assoc !in r
    modifies assoc, assoc.thread`keys, assoc.key`threads, (set a | a in c)`prevKey, (set a | a in r)`prevThread
    ensures Column(assoc.thread, Pushed(assoc, c)) && Row(assoc.key, Pushed(assoc, r))
  {
    hide Column, Row, Pushed;
    ghost var r' := Pushed(assoc, r);
    LinkToKey(assoc, r);
    assert Row(assoc.key, r');
    LinkToThread(assoc, c);
    assert Row(assoc.key, r');
  }

  // ------------------------------------------------------ destructor passes

  /** A call of a key's destructor, in the given pass. */
  datatype Call = Call(pass: nat, key: KeyRec, value: nat)

  /** The calls that nobody interferes with: one for every value that is not
  NULL, in the order of the chain. */
  ghost function Pending(c: seq<Assoc>, tls: map<KeyRec, nat>, pass: nat): seq<Call> {
    if c == [] then []
    else
      (if Value(tls, c[0].key) == 0 then [] else [Call(pass, c[0].key, Value(tls, c[0].key))])
      + Pending(c[1..], tls, pass)
  }

  /** Clearing the value of a key that is not in the chain changes nothing. */
  lemma {:induction false} PendingElsewhere(c: seq<Assoc>, tls: map<KeyRec, nat>, pass: nat, k: KeyRec, v: nat)
    requires forall a :: a in c ==> a.key != k
    ensures Pending(c, tls[k := v], pass) == Pending(c, tls, pass)
  {
    if c != [] {
      PendingElsewhere(c[1..], tls, pass, k, v);
    }
  }

  /** Neither destructors nor other threads make any calls. */
  ghost predicate Quiet(turns: nat -> Turn) {
    && (forall n {:trigger turns(n)} :: turns(n).others == [])
    && (forall n, k, v {:trigger turns(n).callback(k, v)} :: turns(n).callback(k, v) == [])
  }

  /** Every destructor gives a key the same value again, and nothing else is done. */
  ghost predicate Stubborn(turns: nat -> Turn, op: Op) {
    && (forall n {:trigger turns(n)} :: turns(n).others == [])
    && (forall n, k, v {:trigger turns(n).callback(k, v)} :: turns(n).callback(k, v) == [op])
  }

  // The passes of destructors that keep to their own key.

  /** What the key's destructor, called with a value, gives the key again; 0 if it
  does nothing, or is not called. */
  ghost function Again(turns: nat -> Turn, k: nat, v: nat): nat {
    if v == 0 then 0 else NewValue(turns(0).callback(k, v))
  }

  /** The value that these calls, if they set one key only, give it. */
  function NewValue(ops: seq<Op>): nat {
    if |ops| == 1 && ops[0].SetValue? then ops[0].value else 0
  }

  /** The key's value after so many passes. */
  ghost function ValueAfter(turns: nat -> Turn, k: nat, v: nat, passes: nat): nat
    decreases passes
  {
    if passes == 0 then v else ValueAfter(turns, k, Again(turns, k, v), passes - 1)
  }

  /** A pass over a chain: what is left of it, and the values. */
  ghost function Kept(c: seq<Assoc>, tls: map<KeyRec, nat>): seq<Assoc> {
    if c == [] then [] else (if Value(tls, c[0].key) == 0 then [] else [c[0]]) + Kept(c[1..], tls)
  }

  ghost function Given(c: seq<Assoc>, tls: map<KeyRec, nat>, turns: nat -> Turn): map<KeyRec, nat> {
    if c == [] then tls
    else Given(c[1..], tls[c[0].key := Again(turns, c[0].key.number, Value(tls, c[0].key))], turns)
  }

  /** How many passes there are, from the given one on, and their calls. */
  ghost function Expected(c: seq<Assoc>, tls: map<KeyRec, nat>, turns: nat -> Turn, pass: nat): (nat, seq<Call>)
    decreases PTHREAD_DESTRUCTOR_ITERATIONS + 1 - pass
  {
    if pass > PTHREAD_DESTRUCTOR_ITERATIONS || Kept(c, tls) == [] then (pass, [])
    else
      var later := Expected(Kept(c, tls), Given(c, tls, turns), turns, pass + 1);
      Continued(Pending(c, tls, pass), later)
  }

  /** The calls made so far in front of those to come. */
  ghost function Continued(log: seq<Call>, later: (nat, seq<Call>)): (nat, seq<Call>) {
    (later.0, log + later.1)
  }

  ghost predicate KeysApart(c: seq<Assoc>) {
    forall i, j :: 0 <= i < j < |c| ==> c[i].key != c[j].key
  }

  lemma {:induction false} KeptElsewhere(c: seq<Assoc>, tls: map<KeyRec, nat>, k: KeyRec, v: nat)
    requires forall a :: a in c ==> a.key != k
    ensures Kept(c, tls[k := v]) == Kept(c, tls)
  {
    if c != [] {
      KeptElsewhere(c[1..], tls, k, v);
    }
  }

  lemma {:induction false} KeptMembers(c: seq<Assoc>, tls: map<KeyRec, nat>)
    requires KeysApart(c)
    ensures forall a :: a in c && Value(tls, a.key) != 0 ==> a in Kept(c, tls)
    ensures forall i :: 0 <= i < |Kept(c, tls)| ==> Kept(c, tls)[i] in c && Value(tls, Kept(c, tls)[i].key) != 0
    ensures KeysApart(Kept(c, tls))
  {
    if c != [] {
      KeptMembers(c[1..], tls);
      var kept, rest := Kept(c, tls), Kept(c[1..], tls);
      var first := if Value(tls, c[0].key) == 0 then 0 else 1;
      forall i | first <= i < |kept|
        ensures kept[i] in c[1..] && kept[i].key != c[0].key && kept[i] == rest[i - first]
      {
        assert kept[i] == rest[i - first];
        var j :| 0 <= j < |c[1..]| && c[1..][j] == rest[i - first];
        assert c[j + 1] == c[1..][j];
      }
    }
  }

  /** Where no value is left, nothing is pending. */
  lemma {:induction false} PendingNone(c: seq<Assoc>, tls: map<KeyRec, nat>, pass: nat)
    requires forall a :: a in c ==> Value(tls, a.key) == 0
    ensures Pending(c, tls, pass) == []
  {
    if c != [] {
      PendingNone(c[1..], tls, pass);
    }
  }

  lemma {:induction false} PendingKept(c: seq<Assoc>, tls: map<KeyRec, nat>, pass: nat)
    ensures Pending(c, tls, pass) == [] <==> Kept(c, tls) == []
  {
    if c != [] {
      PendingKept(c[1..], tls, pass);
    }
  }

  lemma {:induction false} GivenElsewhere(c: seq<Assoc>, tls: map<KeyRec, nat>, turns: nat -> Turn, k: KeyRec)
    requires forall a :: a in c ==> a.key != k
    ensures Value(Given(c, tls, turns), k) == Value(tls, k)
  {
    if c != [] {
      GivenElsewhere(c[1..], tls[c[0].key := Again(turns, c[0].key.number, Value(tls, c[0].key))], turns, k);
    }
  }

  lemma {:induction false} GivenAt(c: seq<Assoc>, tls: map<KeyRec, nat>, turns: nat -> Turn, i: nat)
    requires KeysApart(c) && i < |c|
    ensures Value(Given(c, tls, turns), c[i].key) == Again(turns, c[i].key.number, Value(tls, c[i].key))
  {
    var tls' := tls[c[0].key := Again(turns, c[0].key.number, Value(tls, c[0].key))];
    if i == 0 {
      GivenElsewhere(c[1..], tls', turns, c[0].key);
    } else {
      GivenAt(c[1..], tls', turns, i - 1);
    }
  }

  /** A value that is used up stays so. */
  lemma {:induction false} UsedUp(turns: nat -> Turn, k: nat, passes: nat)
    ensures ValueAfter(turns, k, 0, passes) == 0
  {
    if passes > 0 {
      UsedUp(turns, k, passes - 1);
    }
  }

  ghost predicate Lasts(c: seq<Assoc>, tls: map<KeyRec, nat>, turns: nat -> Turn, passes: nat) {
    exists a :: a in c && ValueAfter(turns, a.key.number, Value(tls, a.key), passes) != 0
  }

  lemma LastsLonger(c: seq<Assoc>, tls: map<KeyRec, nat>, turns: nat -> Turn, passes: nat)
    requires KeysApart(c)
    ensures Lasts(c, tls, turns, passes + 1) <==> Lasts(Kept(c, tls), Given(c, tls, turns), turns, passes)
  {
    KeptMembers(c, tls);
    forall a | a in c
      ensures ValueAfter(turns, a.key.number, Value(Given(c, tls, turns), a.key), passes)
           == ValueAfter(turns, a.key.number, Value(tls, a.key), passes + 1)
      ensures Value(tls, a.key) == 0 ==> ValueAfter(turns, a.key.number, Value(tls, a.key), passes + 1) == 0
    {
      var i :| 0 <= i < |c| && c[i] == a;
      GivenAt(c, tls, turns, i);
      UsedUp(turns, a.key.number, passes + 1);
    }
    hide Kept, Given, ValueAfter;
    if Lasts(c, tls, turns, passes + 1) {
      var a: Assoc :| a in c && ValueAfter(turns, a.key.number, Value(tls, a.key), passes + 1) != 0;
      assert a in Kept(c, tls) && ValueAfter(turns, a.key.number, Value(Given(c, tls, turns), a.key), passes) != 0;
    }
    if Lasts(Kept(c, tls), Given(c, tls, turns), turns, passes) {
      var a: Assoc :| a in Kept(c, tls)
                   && ValueAfter(turns, a.key.number, Value(Given(c, tls, turns), a.key), passes) != 0;
      assert a in c && ValueAfter(turns, a.key.number, Value(tls, a.key), passes + 1) != 0;
    }
  }

  /** How many passes there are can be told from the destructors: one more exactly
  if some key in the chain still has a value after so many.  For the additional pass
  some destructor has to give its key a value again in each but the last of the
  PTHREAD_DESTRUCTOR_ITERATIONS passes that call destructors. */
  lemma {:induction false} PassesIff(c: seq<Assoc>, tls: map<KeyRec, nat>, turns: nat -> Turn, pass: nat, more: nat)
    requires KeysApart(c) && pass + more <= PTHREAD_DESTRUCTOR_ITERATIONS
    ensures Expected(c, tls, turns, pass).0 > pass + more <==> Lasts(c, tls, turns, more)
    decreases more
  {
    hide Kept, Given, ValueAfter, Pending, Lasts;
    var (c', tls') := (Kept(c, tls), Given(c, tls, turns));
    KeptMembers(c, tls);
    LastsAtAll(c, tls, turns, more);
    if c' != [] && more > 0 {
      PassesIff(c', tls', turns, pass + 1, more - 1);
      LastsLonger(c, tls, turns, more - 1);
    } else if c' != [] {
      ExpectedBound(c', tls', turns, pass + 1);
    }
  }

  lemma LastsAtAll(c: seq<Assoc>, tls: map<KeyRec, nat>, turns: nat -> Turn, passes: nat)
    requires KeysApart(c)
    ensures Kept(c, tls) == [] ==> !Lasts(c, tls, turns, passes)
    ensures Kept(c, tls) != [] ==> Lasts(c, tls, turns, 0)
  {
    KeptMembers(c, tls);
    hide Kept;
    if Kept(c, tls) != [] {
      assert Kept(c, tls)[0] in Kept(c, tls);
    } else {
      forall a | a in c { UsedUp(turns, a.key.number, passes); }
    }
  }

  lemma {:induction false} ExpectedBound(c: seq<Assoc>, tls: map<KeyRec, nat>, turns: nat -> Turn, pass: nat)
    requires pass <= PTHREAD_DESTRUCTOR_ITERATIONS + 1
    ensures pass <= Expected(c, tls, turns, pass).0 <= PTHREAD_DESTRUCTOR_ITERATIONS + 1
    decreases PTHREAD_DESTRUCTOR_ITERATIONS + 1 - pass
  {
    hide Kept, Given, Pending;
    if pass <= PTHREAD_DESTRUCTOR_ITERATIONS && Kept(c, tls) != [] {
      ExpectedBound(Kept(c, tls), Given(c, tls, turns), turns, pass + 1);
    }
  }

  /** Without any calls one pass calls all the destructors, and a second one, if
  there were any, drops the associations. */
  lemma QuietPasses(c: seq<Assoc>, tls: map<KeyRec, nat>, turns: nat -> Turn)
    requires KeysApart(c) && Quiet(turns)
    ensures Expected(c, tls, turns, 1) == (if Pending(c, tls, 1) == [] then 1 else 2, Pending(c, tls, 1))
  {
    hide Kept, Given, Pending, KeysApart;
    PendingKept(c, tls, 1);
    QuietKept(c, tls, turns);
    assert Expected(Kept(c, tls), Given(c, tls, turns), turns, 2) == (2, []);
    assert Pending(c, tls, 1) + [] == Pending(c, tls, 1);
  }

  lemma QuietKept(c: seq<Assoc>, tls: map<KeyRec, nat>, turns: nat -> Turn)
    requires KeysApart(c) && Quiet(turns)
    ensures Kept(Kept(c, tls), Given(c, tls, turns)) == []
  {
    var (c', tls') := (Kept(c, tls), Given(c, tls, turns));
    KeptMembers(c, tls);
    forall a | a in c' ensures Value(tls', a.key) == 0 {
      var i :| 0 <= i < |c| && c[i] == a;
      GivenAt(c, tls, turns, i);
    }
    PendingNone(c', tls', 1);
    PendingKept(c', tls', 1);
  }

  ghost predicate KeysOnce(log: seq<Call>) {
    forall i, j :: 0 <= i < j < |log| && log[i].pass == log[j].pass ==> log[i].key != log[j].key
  }

  /** The calls of the passes up to the given one. */
  ghost predicate LogOk(log: seq<Call>, upto: nat) {
    && KeysOnce(log)
    && (forall c :: c in log ==> 1 <= c.pass <= upto && c.pass <= PTHREAD_DESTRUCTOR_ITERATIONS)
    && (forall c :: c in log ==> c.key.destructor && c.value != 0)
  }

  lemma LogAppend(log: seq<Call>, calls: seq<Call>, pass: nat)
    requires LogOk(log, pass) && KeysOnce(calls)
    requires forall c :: c in calls ==>
      c.pass == pass + 1 <= PTHREAD_DESTRUCTOR_ITERATIONS && c.key.destructor && c.value != 0
    ensures LogOk(log + calls, pass + 1)
  {
    var all := log + calls;
    assert forall i :: 0 <= i < |log| ==> all[i] in log && all[i].pass <= pass;
    assert forall i :: |log| <= i < |all| ==> all[i] in calls && all[i].pass == pass + 1;
    forall i, j | 0 <= i < j < |all| && all[i].pass == all[j].pass ensures all[i].key != all[j].key {
      if j < |log| {
        assert log[i].key != log[j].key;
      } else if |log| <= i {
        assert calls[i - |log|].key != calls[j - |log|].key;
      }
    }
  }

  ghost predicate Called(log: seq<Call>, pass: nat) {
    exists c :: c in log && c.pass == pass
  }

  /** Every pass but the last called a destructor, and the last called none. */
  ghost predicate LastIsIdle(log: seq<Call>, passes: nat) {
    (forall p: nat :: 1 <= p < passes ==> Called(log, p)) && !Called(log, passes)
  }

  lemma CalledAppend(log: seq<Call>, calls: seq<Call>, pass: nat)
    requires LogOk(log, pass) && forall c :: c in calls ==> c.pass == pass + 1
    ensures forall p: nat :: p <= pass ==> Called(log + calls, p) == Called(log, p)
    ensures Called(log + calls, pass + 1) <==> calls != []
  {
    if calls != [] {
      assert calls[0] in log + calls;
    }
    forall p: nat | Called(log, p) ensures Called(log + calls, p) {
      var c :| c in log && c.pass == p;
      assert c in log + calls;
    }
  }

  ghost function CallsOf(log: seq<Call>, k: KeyRec): nat {
    if log == [] then 0 else (if log[0].key == k then 1 else 0) + CallsOf(log[1..], k)
  }

  /** The passes in which the key's destructor was called. */
  ghost function PassesOf(log: seq<Call>, k: KeyRec): set<nat> {
    set c | c in log && c.key == k :: c.pass
  }

  lemma FirstCall(log: seq<Call>)
    requires KeysOnce(log) && log != []
    ensures KeysOnce(log[1..]) && log[0].pass !in PassesOf(log[1..], log[0].key)
  {
    var rest := log[1..];
    forall i, j | 0 <= i < j < |rest| && rest[i].pass == rest[j].pass ensures rest[i].key != rest[j].key {
      assert log[i + 1].key != log[j + 1].key;
    }
    forall c | c in rest && c.key == log[0].key ensures c.pass != log[0].pass {
      var j :| 0 <= j < |rest| && rest[j] == c;
      assert log[j + 1] == c;
    }
  }

  lemma PassesOfFirst(log: seq<Call>, k: KeyRec)
    requires log != []
    ensures PassesOf(log, k) == PassesOf(log[1..], k) + if log[0].key == k then {log[0].pass} else {}
  {
    assert log == [log[0]] + log[1..];
  }

  lemma {:induction false} CallsArePasses(log: seq<Call>, k: KeyRec)
    requires KeysOnce(log)
    ensures CallsOf(log, k) == |PassesOf(log, k)|
  {
    if log != [] {
      FirstCall(log);
      CallsArePasses(log[1..], k);
      PassesOfFirst(log, k);
      hide PassesOf, KeysOnce;
    }
  }

  lemma {:induction false} AtMost(s: set<nat>, n: nat)
    requires forall x :: x in s ==> 1 <= x <= n
    ensures |s| <= n
  {
    if n == 0 {
      assert s == {};
    } else {
      AtMost(s - {n}, n - 1);
    }
  }

  /** A key whose destructor is called at most once in a pass has it called at
  most once for every pass. */
  lemma CallsBounded(log: seq<Call>, k: KeyRec, upto: nat)
    requires LogOk(log, upto)
    ensures CallsOf(log, k) <= PTHREAD_DESTRUCTOR_ITERATIONS
  {
    CallsArePasses(log, k);
    AtMost(PassesOf(log, k), PTHREAD_DESTRUCTOR_ITERATIONS);
  }

  /** A pass under way: which destructors it has called, and what it has still to
  visit in the thread's column. */
  ghost predicate Progress(log: seq<Call>, pass: nat, rest: seq<Assoc>, column: seq<Assoc>) {
    && KeysOnce(log)
    && (forall c :: c in log ==> c.pass == pass <= PTHREAD_DESTRUCTOR_ITERATIONS && c.key.destructor && c.value != 0)
    && (forall c, a :: c in log && a in rest ==> c.key != a.key)
    && (log == [] ==> rest == column)
  }

  lemma PassStart(pass: nat, column: seq<Assoc>, tls: map<KeyRec, nat>, turns: nat -> Turn)
    ensures Progress([], pass, column, column)
    ensures Undisturbed([], pass, [], column, column, tls, turns, PassOutcome(column, tls, turns, pass))
  {
  }

  lemma PassEnd(log: seq<Call>, pass: nat, column: seq<Assoc>)
    requires Progress(log, pass, [], column)
    ensures KeysOnce(log) && (log == [] ==> column == []) && (pass > PTHREAD_DESTRUCTOR_ITERATIONS ==> log == [])
    ensures forall c :: c in log ==> c.pass == pass <= PTHREAD_DESTRUCTOR_ITERATIONS && c.key.destructor && c.value != 0
  {
    if log != [] {
      assert log[0] in log;
    }
  }

  lemma UndisturbedEnd(log: seq<Call>, pass: nat, kept: seq<Assoc>, column: seq<Assoc>, tls: map<KeyRec, nat>,
                       turns: nat -> Turn, all: Outcome)
    requires Undisturbed(log, pass, kept, [], column, tls, turns, all)
    ensures all == Outcome(log, column, tls)
  {
    assert log + [] == log && kept + [] == kept;
  }

  lemma ProgressMoved(log: seq<Call>, pass: nat, rest: seq<Assoc>, column: seq<Assoc>, rest': seq<Assoc>,
                      column': seq<Assoc>)
    requires Progress(log, pass, rest, column)
    requires (forall a :: a in rest' ==> a in rest) && (rest == column ==> rest' == column')
    ensures Progress(log, pass, rest', column')
  {
  }

  lemma ProgressCalled(log: seq<Call>, pass: nat, rest: seq<Assoc>, column: seq<Assoc>, k: KeyRec, v: nat,
                       rest': seq<Assoc>, column': seq<Assoc>)
    requires Progress(log, pass, rest, column) && pass <= PTHREAD_DESTRUCTOR_ITERATIONS && k.destructor && v != 0
    requires (exists a :: a in rest && a.key == k) && (forall a :: a in rest' ==> a in rest && a.key != k)
    ensures Progress(log + [Call(pass, k, v)], pass, rest', column')
  {
  }

  /** What a pass of such destructors comes to. */
  datatype Outcome = Outcome(calls: seq<Call>, chain: seq<Assoc>, tls: map<KeyRec, nat>)

  ghost function PassOutcome(c: seq<Assoc>, tls: map<KeyRec, nat>, turns: nat -> Turn, pass: nat): Outcome {
    Outcome(Pending(c, tls, pass), Kept(c, tls), Given(c, tls, turns))
  }

  /** A pass under way comes to this: the calls made, the associations kept, and
  what the rest of the chain comes to. */
  ghost predicate Undisturbed(log: seq<Call>, pass: nat, kept: seq<Assoc>, rest: seq<Assoc>, column: seq<Assoc>,
                              tls: map<KeyRec, nat>, turns: nat -> Turn, all: Outcome) {
    && column == kept + rest
    && var r := PassOutcome(rest, tls, turns, pass);
       all == Outcome(log + r.calls, kept + r.chain, r.tls)
  }

  lemma WithoutMiddle(kept: seq<Assoc>, a: Assoc, rest: seq<Assoc>)
    requires Distinct(kept + ([a] + rest))
    ensures Without(kept + ([a] + rest), a) == kept + rest
  {
    var c, n := kept + ([a] + rest), |kept|;
    assert c[n] == a;
    forall i | 0 <= i < n ensures c[i] != a {
      assert c[i] != c[n];
    }
    assert c[..n] == kept && c[n + 1..] == rest;
    WithoutAt(c, n);
  }

  lemma Regrouped<T>(s: seq<T>, x: T, t: seq<T>)
    ensures s + ([x] + t) == (s + [x]) + t
  {
  }

  lemma UndisturbedVisit(log: seq<Call>, pass: nat, kept: seq<Assoc>, a: Assoc, rest: seq<Assoc>, column: seq<Assoc>,
                         column': seq<Assoc>, tls: map<KeyRec, nat>, turns: nat -> Turn, all: Outcome)
    requires Undisturbed(log, pass, kept, [a] + rest, column, tls, turns, all) && Distinct(column)
    requires forall b :: b in rest ==> b.key != a.key
    requires column' == if Value(tls, a.key) == 0 then Without(column, a) else column
    ensures var v := Value(tls, a.key);
            var log' := if v == 0 then log else log + [Call(pass, a.key, v)];
            var kept' := if v == 0 then kept else kept + [a];
            Undisturbed(log', pass, kept', rest, column', tls[a.key := Again(turns, a.key.number, v)], turns, all)
  {
    var v := Again(turns, a.key.number, Value(tls, a.key));
    OutcomeStep(a, rest, tls, turns, pass);
    WithoutMiddle(kept, a, rest);
    hide PassOutcome, Without, Distinct, Again;
    var r := PassOutcome(rest, tls[a.key := v], turns, pass);
    Regrouped(kept, a, rest);
    Regrouped(kept, a, r.chain);
    Regrouped(log, Call(pass, a.key, Value(tls, a.key)), r.calls);
  }

  lemma OutcomeStep(a: Assoc, rest: seq<Assoc>, tls: map<KeyRec, nat>, turns: nat -> Turn, pass: nat)
    requires forall b :: b in rest ==> b.key != a.key
    ensures var v := Value(tls, a.key);
            var r := PassOutcome(rest, tls[a.key := Again(turns, a.key.number, v)], turns, pass);
            PassOutcome([a] + rest, tls, turns, pass) ==
              if v == 0 then r else Outcome([Call(pass, a.key, v)] + r.calls, [a] + r.chain, r.tls)
  {
    var v := Again(turns, a.key.number, Value(tls, a.key));
    assert ([a] + rest)[1..] == rest;
    PendingElsewhere(rest, tls, pass, a.key, v);
    KeptElsewhere(rest, tls, a.key, v);
    hide Again;
  }

  // ------------------------------------------------- chains as key numbers

  ghost function Numbers(c: seq<Assoc>): (r: seq<nat>)
    ensures |r| == |c| && forall i :: 0 <= i < |c| ==> r[i] == c[i].key.number
  {
    seq(|c|, i requires 0 <= i < |c| => c[i].key.number)
  }

  lemma {:induction false} NumbersWithoutKey(c: seq<Assoc>, k: KeyRec)
    requires forall a :: a in c && a.key.number == k.number ==> a.key == k
    ensures Numbers(WithoutKey(c, k)) == Drop(Numbers(c), k.number)
  {
    if c != [] {
      NumbersWithoutKey(c[1..], k);
      assert Numbers(c)[1..] == Numbers(c[1..]);
      assert c[0] in c;
      assert Numbers([c[0]] + WithoutKey(c[1..], k)) == [c[0].key.number] + Numbers(WithoutKey(c[1..], k));
    }
  }

  /** Where no other association has its key, dropping one is dropping its key. */
  lemma {:induction false} WithoutIsKey(c: seq<Assoc>, a: Assoc)
    requires a in c && KeysApart(c)
    ensures Without(c, a) == WithoutKey(c, a.key)
  {
    if c[0] == a {
      forall b | b in c[1..] ensures b.key != a.key {}
      WithoutKeyOther(c[1..], a.key);
    } else {
      assert a in c[1..];
      WithoutIsKey(c[1..], a);
    }
  }

  lemma HeadIn(c: seq<Assoc>)
    ensures c != [] ==> c[0] in c
  {
  }

  lemma NumbersPushed(a: Assoc, c: seq<Assoc>)
    ensures Numbers(Pushed(a, c)) == [a.key.number] + Numbers(c)
  {
  }

  /** The calls made are those of the reference. */
  ghost predicate Same(log: seq<Call>, calls: seq<Invocation>) {
    |log| == |calls| && forall i :: 0 <= i < |log| ==>
      log[i].pass == calls[i].pass && log[i].key.number == calls[i].key && log[i].value == calls[i].value
  }

  lemma SameNone()
    ensures Same([], [])
  {
  }

  /** Exactly these calls have been added to the log. */
  ghost predicate SameOne(log: seq<Call>, log': seq<Call>, calls: seq<Invocation>) {
    |log| <= |log'| && log'[..|log|] == log && Same(log'[|log|..], calls)
  }

  lemma SameMore(log: seq<Call>, calls: seq<Invocation>, log': seq<Call>, more: seq<Invocation>)
    requires Same(log, calls) && SameOne(log, log', more)
    ensures Same(log', calls + more)
  {
    forall i | 0 <= i < |log'|
      ensures var c := (calls + more)[i];
              log'[i].pass == c.pass && log'[i].key.number == c.key && log'[i].value == c.value
    {
      if i < |log| { assert log'[i] == log[i]; } else { assert log'[i] == log'[|log|..][i - |log|]; }
    }
  }

  lemma SameSize(log: seq<Call>, calls: seq<Invocation>)
    requires Same(log, calls)
    ensures |log| == |calls|
  {
  }

  lemma SameJoin(log: seq<Call>, calls: seq<Invocation>, log': seq<Call>, calls': seq<Invocation>)
    requires Same(log, calls) && Same(log', calls')
    ensures Same(log + log', calls + calls')
  {
    assert (log + log')[..|log|] == log && (log + log')[|log|..] == log';
    SameMore(log, calls, log + log', calls');
  }

  // --------------------------------------------------------------- the grid

  /** The columns and the rows hold the same associations, and no pair of thread
  and key has two. */
  ghost predicate Crossed(assocs: set<Assoc>, chain: map<ThreadRec, seq<Assoc>>, row: map<KeyRec, seq<Assoc>>) {
    && (forall a :: a in assocs ==> a.thread in chain && a in chain[a.thread] && a.key in row && a in row[a.key])
    && (forall t, a :: t in chain && a in chain[t] ==> a in assocs && a.thread == t)
    && (forall k, a :: k in row && a in row[k] ==> a in assocs && a.key == k)
    && (forall a, b :: a in assocs && b in assocs && a.thread == b.thread && a.key == b.key ==> a == b)
  }

  ghost predicate Linked(assocs: set<Assoc>, chain: map<ThreadRec, seq<Assoc>>, row: map<KeyRec, seq<Assoc>>)
    requires Crossed(assocs, chain, row)
    reads chain.Keys`keys, chain.Keys`nextAssoc, row.Keys`threads, row.Keys`live, assocs
  {
    && (forall a {:trigger a.key} :: a in assocs ==> a.key.live && a.key.destructor)
    && (forall t {:trigger chain[t]} :: t in chain ==> Column(t, chain[t]))
    && (forall k {:trigger row[k]} :: k in row ==> Row(k, row[k]))
  }

  lemma CrossedWithout(assocs: set<Assoc>, chain: map<ThreadRec, seq<Assoc>>, row: map<KeyRec, seq<Assoc>>, a: Assoc)
    requires Crossed(assocs, chain, row) && a in assocs
    requires Distinct(chain[a.thread]) && Distinct(row[a.key])
    ensures Crossed(assocs - {a}, chain[a.thread := Without(chain[a.thread], a)], row[a.key := Without(row[a.key], a)])
  {
    WithoutMembers(chain[a.thread], a);
    WithoutMembers(row[a.key], a);
    hide Distinct, Without;
  }

  ghost function PairsOf(assocs: set<Assoc>): set<(ThreadRec, KeyRec)> {
    set a | a in assocs :: (a.thread, a.key)
  }

  lemma PairsDropped(before: set<Assoc>, after: set<Assoc>, k: KeyRec)
    requires forall a :: a in after <==> a in before && a.key != k
    ensures PairsOf(after) == set p | p in PairsOf(before) && p.1 != k
  {
  }

  ghost predicate Unused(assocs: set<Assoc>, t: ThreadRec, k: KeyRec) {
    forall a {:trigger a.thread} {:trigger a.key} :: a in assocs ==> a.thread != t || a.key != k
  }

  lemma CrossedWith(assocs: set<Assoc>, chain: map<ThreadRec, seq<Assoc>>, row: map<KeyRec, seq<Assoc>>, a: Assoc)
    requires Crossed(assocs, chain, row) && a !in assocs && a.thread in chain && a.key in row
    requires Unused(assocs, a.thread, a.key)
    ensures Crossed(assocs + {a}, chain[a.thread := Pushed(a, chain[a.thread])], row[a.key := Pushed(a, row[a.key])])
  {
  }

  lemma {:induction false} WithoutMembers(c: seq<Assoc>, a: Assoc)
    requires Distinct(c)
    ensures forall b :: b in Without(c, a) ==> b in c && b != a
    ensures forall b :: b in c && b != a ==> b in Without(c, a)
  {
    if c != [] && c[0] != a {
      WithoutMembers(c[1..], a);
    }
  }

  lemma ColumnLinks(t: ThreadRec, c: seq<Assoc>, a: Assoc)
    requires Column(t, c) && a in c && a.nextKey != null
    ensures a.nextKey in c && a.nextKey.prevKey == a
  {
    var i :| 0 <= i < |c| && c[i] == a;
    assert i + 1 < |c| ==> c[i].nextKey == c[i + 1];
  }

  lemma RowLinks(k: KeyRec, r: seq<Assoc>, a: Assoc)
    requires Row(k, r) && a in r && a.nextThread != null
    ensures a.nextThread in r && a.nextThread.prevThread == a
  {
    var i :| 0 <= i < |r| && r[i] == a;
    assert i + 1 < |r| ==> r[i].nextThread == r[i + 1];
  }

  class Grid {
    const threadTable: seq<ThreadRec>
    var keyTable: seq<KeyRec>
    ghost const threads: set<ThreadRec>
    ghost var keys: set<KeyRec>                    // every key ever created
    ghost var assocs: set<Assoc>                   // the associations in the grid
    ghost var Repr: set<object>
    ghost var chain: map<ThreadRec, seq<Assoc>>
    ghost var row: map<KeyRec, seq<Assoc>>

    ghost predicate Within()
      reads this
    {
      this in Repr && threads <= Repr && keys <= Repr && assocs <= Repr
    }

    /** The relation the grid stands for. */
    ghost function Pairs(): set<(ThreadRec, KeyRec)>
      reads `assocs
    {
      PairsOf(assocs)
    }

    ghost predicate Valid()
      reads `keys, `assocs, `chain, `row, threads`keys, threads`nextAssoc, keys`threads, keys`live, assocs
    {
      && chain.Keys == threads && row.Keys == keys
      && Crossed(assocs, chain, row)
      && Linked(assocs, chain, row)
    }

    /** Every value that a destructor is waiting for is reachable from its
    thread, except for values of key k0. */
    ghost predicate Covered(k0: KeyRec?)
      reads `keys, `assocs, threads`tls, keys`live
    {
      forall t, k {:trigger Value(t.tls, k)} ::
        t in threads && k in keys && k != k0 && k.live && k.destructor && Value(t.tls, k) != 0 ==> (t, k) in Pairs()
    }

    /** What a destructor pass over t has still to visit. */
    ghost function Rest(t: ThreadRec): seq<Assoc>
      requires t in chain
      reads `chain, t`nextAssoc
    {
      From(chain[t], t.nextAssoc)
    }

    /** Threads that have not set any value yet, and no keys. */
    constructor (table: seq<ThreadRec>)
      requires forall t :: t in table ==> t.keys == null && t.nextAssoc == null && t.tls == map[]
      ensures threadTable == table && keyTable == [] && threads == (set t | t in table) && Pairs() == {}
      ensures keys == {} && assocs == {} && Repr == {this} + (set t: ThreadRec | t in table)
      ensures Valid() && Covered(null) && Named() && Within()
    {
      threadTable, keyTable := table, [];
      threads, keys, assocs := set t | t in table, {}, {};
      chain, row := map t | t in table :: [], map[];
      Repr := {this} + (set t: ThreadRec | t in table);
    }

    /** What the grid stands for: a relation between threads and keys.  Every
    association is in the chain of its own thread and of its own key and in no
    other, chains have no cycles and their links are inverse to each other, and a
    pair is related exactly if it has an association, which is then the only one. */
    lemma Represents()
      requires Valid()
      ensures forall t, a :: t in threads && a in assocs ==> (a in chain[t] <==> a.thread == t)
      ensures forall k, a :: k in keys && a in assocs ==> (a in row[k] <==> a.key == k)
      ensures forall t :: t in threads ==> Distinct(chain[t]) && forall a :: a in chain[t] ==> a in assocs
      ensures forall k :: k in keys ==> Distinct(row[k]) && forall a :: a in row[k] ==> a in assocs
      ensures forall t, k :: t in threads && k in keys ==>
        ((t, k) in Pairs() <==> exists a :: a in chain[t] && a.key == k)
      ensures forall a, b :: a in assocs && b in assocs && a.thread == b.thread && a.key == b.key ==> a == b
      ensures forall a :: a in assocs && a.nextKey != null ==>
        a.nextKey in assocs && a.nextKey.thread == a.thread && a.nextKey.prevKey == a
      ensures forall a :: a in assocs && a.nextThread != null ==>
        a.nextThread in assocs && a.nextThread.key == a.key && a.nextThread.prevThread == a
    {
      forall a | a in assocs && a.nextKey != null
        ensures a.nextKey in assocs && a.nextKey.thread == a.thread && a.nextKey.prevKey == a
      {
        ColumnLinks(a.thread, chain[a.thread], a);
      }
      forall a | a in assocs && a.nextThread != null
        ensures a.nextThread in assocs && a.nextThread.key == a.key && a.nextThread.prevThread == a
      {
        RowLinks(a.key, row[a.key], a);
      }
    }

    lemma HasColumn(t: ThreadRec)
      requires Valid() && t in threads
      ensures t in chain
    {
    }

    lemma Unpaired(a: Assoc)
      requires Valid() && a in assocs
      ensures PairsOf(assocs - {a}) == PairsOf(assocs) - {(a.thread, a.key)}
    {
    }

    /** Columns and rows are made of the grid's associations, and no other column
    or row shares any with those of t0 and k0. */
    lemma Apart(t0: ThreadRec, k0: KeyRec)
      requires Valid() && t0 in threads && k0 in keys
      ensures forall t, a :: t in threads && t != t0 && a in chain[t] ==> a !in chain[t0]
      ensures forall k, a :: k in keys && k != k0 && a in row[k] ==> a !in row[k0]
      ensures forall t :: t in threads ==> Distinct(chain[t]) && (t.nextAssoc == null || t.nextAssoc in chain[t])
      ensures forall t, a :: t in threads && a in chain[t] ==> a in assocs
      ensures forall k, a :: k in keys && a in row[k] ==> a in assocs
    {
      hide Distinct;
      forall t, a | t in threads && t != t0 && a in chain[t] ensures a !in chain[t0] {
        assert a.thread == t;
      }
      forall k, a | k in keys && k != k0 && a in row[k] ensures a !in row[k0] {
        assert a.key == k;
      }
    }

    lemma Located(a: Assoc)
      requires Valid() && a in assocs
      ensures a.thread in threads && a in chain[a.thread] && a.key in keys && a in row[a.key]
    {
    }

    lemma Destroyed(a: Assoc, i: nat, j: nat)
      requires Valid() && a in assocs
      requires i < |chain[a.thread]| && chain[a.thread][i] == a && j < |row[a.key]| && row[a.key][j] == a
      ensures var c, r := chain[a.thread], row[a.key];
              && Without(c, a) == Cut(c, i) && Without(r, a) == Cut(r, j)
              && Crossed(assocs - {a}, chain[a.thread := Without(c, a)], row[a.key := Without(r, a)])
    {
      WithoutAt(chain[a.thread], i);
      WithoutAt(row[a.key], j);
      CrossedWithout(assocs, chain, row, a);
    }

    /** Both halves, among all the other chains. */
    method Detach(assoc: Assoc, ghost i: nat, ghost j: nat, ghost chain': map<ThreadRec, seq<Assoc>>,
                  ghost row': map<KeyRec, seq<Assoc>>)
      requires Valid() && assoc in assocs
      requires i < |chain[assoc.thread]| && chain[assoc.thread][i] == assoc && j < |row[assoc.key]|
      requires row[assoc.key][j] == assoc
      requires chain' == chain[assoc.thread := Without(chain[assoc.thread], assoc)] && chain'.Keys == threads
      requires row' == row[assoc.key := Without(row[assoc.key], assoc)] && row'.Keys == keys
      modifies threads`keys, threads`nextAssoc, keys`threads
      modifies assocs`nextKey, assocs`prevKey, assocs`nextThread, assocs`prevThread
      ensures Crossed(assocs - {assoc}, chain', row') && Linked(assocs - {assoc}, chain', row')
      ensures forall t {:trigger chain'[t]} :: t in threads ==>
        From(chain'[t], t.nextAssoc) == Without(old(Rest(t)), assoc)
    {
      hide Column, Row, Distinct, Crossed, At, Cut, Without, From;
      Located(assoc);
      Apart(assoc.thread, assoc.key);
      ghost var c, r := chain[assoc.thread], row[assoc.key];
      ghost var c', r' := Without(c, assoc), Without(r, assoc);
      Destroyed(assoc, i, j);
      Unlink(assoc, c, i, r, j);
      assert Column(assoc.thread, c') && Row(assoc.key, r');
      forall t | t in threads && t != assoc.thread ensures Column(t, chain[t]) && t.nextAssoc == old(t.nextAssoc) {
        assert old(Column(t, chain[t]));
      }
      forall k | k in keys && k != assoc.key ensures Row(k, row[k]) {
        assert old(Row(k, row[k]));
      }
      forall t | t in threads ensures From(chain'[t], t.nextAssoc) == Without(old(Rest(t)), assoc) {
        FromDestroy(chain[t], c, i, old(t.nextAssoc));
        if t != assoc.thread { WithoutOther(chain[t], assoc); }
      }
    }

    method AssocDestroy(assoc: Assoc?)
      requires Valid() && (assoc == null || assoc in assocs)
      modifies `chain, `row, `assocs, threads`keys, threads`nextAssoc, keys`threads
      modifies assocs`nextKey, assocs`prevKey, assocs`nextThread, assocs`prevThread
      ensures Valid()
      ensures assoc == null ==> assocs == old(assocs) && chain == old(chain) && row == old(row)
      ensures assoc != null ==>
        && assocs == old(assocs) - {assoc}
        && chain == old(chain[assoc.thread := Without(chain[assoc.thread], assoc)])
        && row == old(row[assoc.key := Without(row[assoc.key], assoc)])
      ensures assoc != null ==> Pairs() == old(Pairs()) - {(assoc.thread, assoc.key)}
      ensures forall t {:trigger Rest(t)} :: t in threads ==> Rest(t) == Without(old(Rest(t)), assoc)
    {
      hide Column, Row, Distinct, Crossed, Linked, Cut, Without, From, PairsOf;
      if assoc != null {
        Located(assoc);
        Apart(assoc.thread, assoc.key);
        ghost var i: nat :| i < |chain[assoc.thread]| && chain[assoc.thread][i] == assoc;
        ghost var j: nat :| j < |row[assoc.key]| && row[assoc.key][j] == assoc;
        ghost var chain' := chain[assoc.thread := Without(chain[assoc.thread], assoc)];
        ghost var row' := row[assoc.key := Without(row[assoc.key], assoc)];
        Unpaired(assoc);
        assert chain'.Keys == threads && row'.Keys == keys;
        Detach(assoc, i, j, chain', row');
        chain, row, assocs := chain', row', assocs - {assoc};
      } else {
        forall t | t in threads { WithoutOther(Rest(t), null); }
      }
    }

    lemma Paired(a: Assoc)
      ensures PairsOf(assocs + {a}) == PairsOf(assocs) + {(a.thread, a.key)}
    {
    }

    /** The new association takes its place at the head of both chains. */
    method Insert(assoc: Assoc)
      requires Valid() && assoc !in assocs && assoc.thread in threads && assoc.key in keys
      requires assoc.key.live && assoc.key.destructor && Unused(assocs, assoc.thread, assoc.key)
      modifies `chain, `row, `assocs, assoc, threads`keys, keys`threads, assocs`prevKey, assocs`prevThread
      ensures Valid() && assocs == old(assocs) + {assoc} && Pairs() == old(Pairs()) + {(assoc.thread, assoc.key)}
      ensures chain == old(chain)[assoc.thread := Pushed(assoc, old(chain[assoc.thread]))]
      ensures row == old(row)[assoc.key := Pushed(assoc, old(row[assoc.key]))]
      ensures forall t {:trigger Rest(t)} :: t in threads ==> Rest(t) == old(Rest(t))
    {
      hide Column, Row, Distinct, Crossed, Linked, From, PairsOf, Unused, Pushed;
      ghost var chain' := chain[assoc.thread := Pushed(assoc, chain[assoc.thread])];
      ghost var row' := row[assoc.key := Pushed(assoc, row[assoc.key])];
      Paired(assoc);
      assert chain'.Keys == threads && row'.Keys == keys;
      Attach(assoc, chain', row');
      chain, row, assocs := chain', row', assocs + {assoc};
    }

    /** ptw32_tkAssocCreate. */
    method AssocCreate(sp: ThreadRec, key: KeyRec) returns (assoc: Assoc)
      requires Valid() && sp in threads && key in keys && key.live && key.destructor && Unused(assocs, sp, key)
      modifies `chain, `row, `assocs, threads`keys, keys`threads, assocs`prevKey, assocs`prevThread
      ensures Valid() && fresh(assoc) && assoc.thread == sp && assoc.key == key
      ensures assocs == old(assocs) + {assoc} && Pairs() == old(Pairs()) + {(sp, key)}
      ensures chain == old(chain)[sp := Pushed(assoc, old(chain[sp]))]
      ensures row == old(row)[key := Pushed(assoc, old(row[key]))]
      ensures forall t {:trigger Rest(t)} :: t in threads ==> Rest(t) == old(Rest(t))
    {
      hide Column, Row, Distinct, Crossed, Linked, From, PairsOf, Unused, Pushed;
      assoc := new Assoc(sp, key);
      Insert(assoc);
    }

    method Attach(assoc: Assoc, ghost chain': map<ThreadRec, seq<Assoc>>, ghost row': map<KeyRec, seq<Assoc>>)
      requires Valid() && assoc.thread in threads && assoc.key in keys && assoc !in assocs
      requires Unused(assocs, assoc.thread, assoc.key)
      requires chain' == chain[assoc.thread := Pushed(assoc, chain[assoc.thread])] && chain'.Keys == threads
      requires row' == row[assoc.key := Pushed(assoc, row[assoc.key])] && row'.Keys == keys
      requires assoc.key.live && assoc.key.destructor
      modifies assoc, threads`keys, keys`threads, assocs`prevKey, assocs`prevThread
      ensures Crossed(assocs + {assoc}, chain', row') && Linked(assocs + {assoc}, chain', row')
      ensures forall t {:trigger chain'[t]} :: t in threads ==> From(chain'[t], t.nextAssoc) == old(Rest(t))
    {
      hide Column, Row, Distinct, Crossed, Unused, From, Pushed;
      CrossedWith(assocs, chain, row, assoc);
      Apart(assoc.thread, assoc.key);
      ghost var c, r := chain[assoc.thread], row[assoc.key];
      Link(assoc, c, r);
      forall t | t in threads && t != assoc.thread ensures Column(t, chain'[t]) {
        assert old(Column(t, chain[t]));
      }
      forall k | k in keys && k != assoc.key ensures Row(k, row'[k]) {
        assert old(Row(k, row[k]));
      }
      assert Linked(assocs + {assoc}, chain', row') by {
        assert chain'[assoc.thread] == Pushed(assoc, c) && row'[assoc.key] == Pushed(assoc, r);
      }
      hide Linked;
      forall t | t in threads ensures From(chain'[t], t.nextAssoc) == old(Rest(t)) {
        if t == assoc.thread { FromPushed(c, assoc, t.nextAssoc); }
      }
    }

    /** The search of pthread_setspecific. */
    method FindAssoc(self: ThreadRec, key: KeyRec) returns (assoc: Assoc?)
      requires Valid() && self in threads
      ensures assoc == null <==> Unused(assocs, self, key)
      ensures assoc != null ==> assoc in assocs && assoc.thread == self && assoc.key == key
      ensures assoc != null <==> (self, key) in Pairs()
    {
      assoc := self.keys;
      ghost var i := 0;
      while assoc != null
        invariant 0 <= i <= |chain[self]| && assoc == At(chain[self], i)
        invariant forall j :: 0 <= j < i ==> chain[self][j].key != key
        decreases |chain[self]| - i
      {
        if assoc.key == key {
          break;
        }
        assoc := assoc.nextKey;
        i := i + 1;
      }
    }

    /** The search and the insertion of pthread_setspecific. */
    method Associate(self: ThreadRec, key: KeyRec)
      requires Valid() && Covered(null) && self in threads && key in keys && key.live && key.destructor
      modifies `chain, `row, `assocs, threads`keys, keys`threads, assocs`prevKey, assocs`prevThread
      ensures Valid() && Covered(null) && fresh(assocs - old(assocs))
      ensures Pairs() == old(Pairs()) + {(self, key)}
      ensures forall k {:trigger row[k]} :: k in keys && k != key ==> row[k] == old(row[k])
      ensures forall t {:trigger chain[t]} :: t in threads && t != self ==> chain[t] == old(chain[t])
      ensures if (self, key) in old(Pairs()) then chain[self] == old(chain[self])
              else exists a :: a in assocs && a.thread == self && a.key == key
                               && chain[self] == Pushed(a, old(chain[self]))
      ensures forall t {:trigger Rest(t)} :: t in threads ==> Rest(t) == old(Rest(t))
    {
      hide Column, Row, Distinct, Crossed, Linked, From, Unused, Pushed, PairsOf;
      var assoc := FindAssoc(self, key);
      if assoc == null {
        assoc := AssocCreate(self, key);
      }
    }

    /** pthread_setspecific. */
    method SetSpecific(self: ThreadRec, key: KeyRec?, value: nat)
      requires Valid() && Covered(null) && self in threads && (key != null ==> key in keys && key.live)
      modifies `chain, `row, `assocs, threads`keys, keys`threads, assocs`prevKey, assocs`prevThread, self`tls
      ensures Valid() && Covered(null) && fresh(assocs - old(assocs))
      ensures self.tls == if key == null then old(self.tls) else old(self.tls)[key := value]
      ensures Pairs() == old(Pairs()) + (if key != null && key.destructor && value != 0 then {(self, key)} else {})
      ensures forall k {:trigger row[k]} :: k in keys && k != key ==> row[k] == old(row[k])
      ensures forall t {:trigger chain[t]} :: t in threads && t != self ==> chain[t] == old(chain[t])
      ensures if key == null || !key.destructor || value == 0 || (self, key) in old(Pairs())
              then chain[self] == old(chain[self])
              else exists a :: a in assocs && a.thread == self && a.key == key
                               && chain[self] == Pushed(a, old(chain[self]))
      ensures forall t {:trigger Rest(t)} :: t in threads ==> Rest(t) == old(Rest(t))
    {
      hide Column, Row, Distinct, Crossed, Linked, From, Pushed, PairsOf;
      if key != null {
        if key.destructor && value != 0 {
          Associate(self, key);
        }
        Store(self, key, value);
      }
    }

    /** TlsSetValue. */
    method Store(self: ThreadRec, key: KeyRec, value: nat)
      requires Covered(null) && self in threads && key in keys
      requires key.destructor && value != 0 ==> (self, key) in Pairs()
      modifies self`tls
      ensures Covered(null) && self.tls == old(self.tls)[key := value]
    {
      self.tls := self.tls[key := value];
      forall t, k | t in threads && k in keys && k.live && k.destructor && Value(t.tls, k) != 0
        ensures (t, k) in Pairs()
      {
        assert (t == self && k == key) || old(Value(t.tls, k)) == Value(t.tls, k);
      }
    }

    method Rewind(self: ThreadRec, ghost v: View)
      requires Valid() && self in threads && self in chain && Shows(self, v)
      modifies self`nextAssoc
      ensures Valid() && Rest(self) == chain[self] && Shows(self, v.(rest := v.chain))
    {
      hide Distinct, Crossed, Numbers, Value;
      self.nextAssoc := self.keys;
    }

    lemma Position(self: ThreadRec, assoc: Assoc) returns (i: nat)
      requires Valid() && self in threads && self.nextAssoc == assoc
      ensures i < |chain[self]| && chain[self][i] == assoc && assoc in assocs && assoc.thread == self
      ensures assoc.nextKey == null || assoc.nextKey in chain[self]
      ensures Rest(self) == chain[self][i..] && From(chain[self], assoc.nextKey) == chain[self][i + 1..]
      ensures forall a :: a in chain[self][i + 1..] ==> a.key != assoc.key
      ensures assoc.key in keys && assoc.key.destructor
    {
      var c := chain[self];
      i :| i < |c| && c[i] == assoc;
      assert At(c, i + 1) == assoc.nextKey;
      FromAt(c, i);
      FromAt(c, i + 1);
    }

    /** The destructor pass steps from assoc to the one after it. */
    method Advance(self: ThreadRec, assoc: Assoc)
      requires Valid() && self in threads && self.nextAssoc == assoc
      modifies self`nextAssoc
      ensures Valid() && assoc in assocs && assoc.thread == self && assoc.key in keys && assoc.key.destructor
      ensures old(Rest(self)) != [] && old(Rest(self))[0] == assoc && Rest(self) == old(Rest(self))[1..]
      ensures forall a :: a in Rest(self) ==> a.key != assoc.key
    {
      hide Distinct, Crossed, From;
      ghost var i := Position(self, assoc);
      self.nextAssoc := assoc.nextKey;
    }

    /** What has happened to the grid when some of a key's row is gone. */
    twostate predicate Dropping(key: KeyRec)
      requires old(Valid()) && Valid() && chain.Keys == old(chain.Keys)
      reads this, threads`nextAssoc, threads`keys, keys`threads, keys`live, assocs
    {
      && keys == old(keys) && assocs <= old(assocs)
      && (forall a :: a in old(assocs) && a.key != key ==> a in assocs)
      && (forall k :: k in keys && k != key ==> row[k] == old(row[k]))
      && (forall t {:trigger chain[t]} :: t in threads ==> WithoutKey(chain[t], key) == old(WithoutKey(chain[t], key)))
      && (forall t {:trigger Rest(t)} :: t in threads ==> WithoutKey(Rest(t), key) == old(WithoutKey(Rest(t), key)))
    }

    lemma RowHead(key: KeyRec)
      requires Valid() && key in keys
      ensures key.threads == null <==> row[key] == []
      ensures key.threads != null ==>
        && key.threads in assocs && key.threads.key == key && key.threads.thread in threads
        && Without(row[key], key.threads) == row[key][1..] && key.destructor
    {
      assert key.threads != null ==> key.threads.key == key;
    }

    /** One round of the loop of pthread_key_delete: destroy the head of the row. */
    method DropHead(key: KeyRec)
      requires Valid() && Covered(key) && key in keys && key.threads != null
      modifies `chain, `row, `assocs, threads`keys, threads`nextAssoc, keys`threads
      modifies assocs`nextKey, assocs`prevKey, assocs`nextThread, assocs`prevThread
      ensures Valid() && Covered(key) && Dropping(key) && row[key] == old(row[key])[1..] && |row[key]| < |old(row[key])|
    {
      hide Column, Row, Distinct, Crossed, Linked, From, PairsOf, WithoutKey, Without;
      RowHead(key);
      var assoc := key.threads;
      AssocDestroy(assoc);
      forall t | t in threads ensures WithoutKey(chain[t], key) == old(WithoutKey(chain[t], key)) {
        WithoutKeyWithout(old(chain[t]), assoc);
      }
      forall t | t in threads ensures WithoutKey(Rest(t), key) == old(WithoutKey(Rest(t), key)) {
        WithoutKeyWithout(old(Rest(t)), assoc);
      }
    }

    /** The loop of pthread_key_delete. */
    method DropRow(key: KeyRec)
      requires Valid() && Covered(key) && key in keys
      modifies `chain, `row, `assocs, threads`keys, threads`nextAssoc, keys`threads
      modifies assocs`nextKey, assocs`prevKey, assocs`nextThread, assocs`prevThread
      ensures Valid() && Covered(key) && Dropping(key) && row[key] == []
    {
      hide Column, Row, Distinct, Crossed, Linked, From, PairsOf, WithoutKey, Without;
      RowHead(key);
      while key.threads != null
        invariant Valid() && Covered(key) && Dropping(key) && (key.threads == null ==> row[key] == [])
        decreases |row[key]|
      {
        DropHead(key);
        RowHead(key);
      }
    }

    lemma RowGone(key: KeyRec)
      requires Valid() && key in keys && row[key] == []
      ensures forall a :: a in assocs ==> a.key != key
      ensures forall t {:trigger chain[t]} :: t in threads ==> WithoutKey(chain[t], key) == chain[t]
      ensures forall t {:trigger Rest(t)} :: t in threads ==> WithoutKey(Rest(t), key) == Rest(t)
    {
      hide Column, Row, Distinct, WithoutKey;
      forall t | t in threads ensures WithoutKey(chain[t], key) == chain[t] && WithoutKey(Rest(t), key) == Rest(t) {
        FromMembers(chain[t], t.nextAssoc);
        WithoutKeyOther(chain[t], key);
        WithoutKeyOther(Rest(t), key);
      }
    }

    /** The key is freed. */
    method Free(key: KeyRec)
      requires Valid() && Covered(key) && key in keys && (forall a :: a in assocs ==> a.key != key)
      modifies key`live
      ensures Valid() && Covered(null) && !key.live
    {
      hide Column, Row, Distinct, Crossed;
      key.live := false;
    }

    /** pthread_key_delete. */
    method KeyDelete(key: KeyRec?)
      requires Valid() && Covered(null) && (key != null ==> key in keys && key.live)
      modifies `chain, `row, `assocs, threads`keys, threads`nextAssoc, keys`threads, keys`live
      modifies assocs`nextKey, assocs`prevKey, assocs`nextThread, assocs`prevThread
      ensures Valid() && Covered(null) && assocs <= old(assocs)
      ensures forall k :: k in keys ==> k.live == (old(k.live) && k != key)
      ensures key == null ==>
        && assocs == old(assocs) && chain == old(chain) && row == old(row)
        && forall t {:trigger Rest(t)} :: t in threads ==> Rest(t) == old(Rest(t))
      ensures key != null ==>
        && assocs == (set a | a in old(assocs) && a.key != key)
        && Pairs() == (set p | p in old(Pairs()) && p.1 != key)
        && (forall k :: k in keys && k != key ==> row[k] == old(row[k]))
        && (forall t {:trigger chain[t]} :: t in threads ==> chain[t] == WithoutKey(old(chain[t]), key))
        && (forall t {:trigger Rest(t)} :: t in threads ==> Rest(t) == WithoutKey(old(Rest(t)), key))
    {
      hide Column, Row, Distinct, Crossed, Linked, From, PairsOf, WithoutKey, Without;
      if key != null {
        RowHead(key);
        if key.threads != null && key.destructor {
          DropRow(key);
        }
        RowGone(key);
        PairsDropped(old(assocs), assocs, key);
        Free(key);
      }
    }

    /** The tables name threads and keys of the grid. */
    ghost predicate Named()
      reads this
    {
      && (forall t :: t in threadTable ==> t in threads) && (forall k :: k in keyTable ==> k in keys)
      && (forall k {:trigger k.number} :: k in keys ==> k.number < |keyTable| && keyTable[k.number] == k)
      && (forall i :: 0 <= i < |keyTable| ==> keyTable[i].number == i)
    }

    /** pthread_key_create. */
    method KeyCreate(destructor: bool) returns (key: KeyRec)
      requires Valid() && Covered(null) && Named()
      modifies `keyTable, `keys, `row
      ensures Valid() && Covered(null) && Named() && fresh(key) && key.live && key.destructor == destructor
      ensures keys == old(keys) + {key} && row == old(row)[key := []] && keyTable == old(keyTable) + [key]
      ensures forall t :: t in threads ==> Value(t.tls, key) == 0
    {
      hide Column, Row, PairsOf;
      key := new KeyRec(|keyTable|, destructor);
      EmptyRow(key);
      ghost var row' := row[key := []];
      assert row'.Keys == keys + {key};
      forall k | k in keys + {key} ensures Row(k, row'[k]) {
        assert k != key ==> old(Row(k, row[k]));
      }
      forall t | t in threads ensures Column(t, chain[t]) {
        assert old(Column(t, chain[t]));
      }
      keyTable, keys, row := keyTable + [key], keys + {key}, row';
      assert Linked(assocs, chain, row);
    }

    /** What calls may do to a thread whose destructor pass is under way: nothing
    is added to what the pass has still to visit, and calls of other threads only
    take associations away. */
    twostate predicate Disturbed(self: ThreadRec, own: bool)
      requires self in old(chain) && self in chain
      reads this, self
    {
      && |Rest(self)| <= |old(Rest(self))| && (forall a :: a in Rest(self) ==> a in old(Rest(self)))
      && (!own ==> self.tls == old(self.tls))
      && (!own && old(Rest(self) == chain[self]) ==> Rest(self) == chain[self])
    }

    ghost predicate Ready(self: ThreadRec)
      reads this, threads, keys, assocs
    {
      self in threads && self in chain && Valid() && Covered(null) && Named() && Within()
    }

    /** Which numbers name the thread. */
    ghost function Mine(self: ThreadRec): (r: seq<bool>)
      ensures |r| == |threadTable| && forall t :: 0 <= t < |r| ==> r[t] == (threadTable[t] == self)
    {
      seq(|threadTable|, t requires 0 <= t < |threadTable| => threadTable[t] == self)
    }

    ghost predicate KeysShown(v: View, tls: map<KeyRec, nat>)
      reads `keyTable, (set k | k in keyTable)`live
    {
      && |v.destructors| == |v.live| == |v.values| == |keyTable|
      && forall i :: 0 <= i < |keyTable| ==>
           && v.destructors[i] == keyTable[i].destructor && v.live[i] == keyTable[i].live
           && v.values[i] == Value(tls, keyTable[i])
    }

    ghost predicate ShowsKeys(self: ThreadRec, v: View)
      reads `keyTable, (set k | k in keyTable)`live, self`tls
    {
      KeysShown(v, self.tls)
    }

    /** The view of the grid that the thread has. */
    ghost predicate Shows(self: ThreadRec, v: View)
      reads this, (set k | k in keyTable)`live, self`tls, self`nextAssoc
    {
      ShowsKeys(self, v) && self in chain && v.chain == Numbers(chain[self]) && v.rest == Numbers(Rest(self))
    }

    lemma ShowsSound(self: ThreadRec, v: View)
      requires Ready(self) && Shows(self, v)
      ensures Sound(v)
    {
      hide Column, Row, Distinct;
      FromMembers(chain[self], self.nextAssoc);
      forall n | n in v.chain ensures n < |keyTable| && keyTable[n].live && keyTable[n].destructor {
        var i :| 0 <= i < |chain[self]| && v.chain[i] == n;
        assert chain[self][i] in assocs;
      }
      forall n | n in v.rest ensures n in v.chain {
        var i :| 0 <= i < |Rest(self)| && v.rest[i] == n;
        var j :| 0 <= j < |chain[self]| && chain[self][j] == Rest(self)[i];
        assert v.chain[j] == n;
      }
    }

    lemma ChainsShown(self: ThreadRec, v: View)
      requires Shows(self, v)
      ensures self in chain && v.chain == Numbers(chain[self]) && v.rest == Numbers(Rest(self))
    {
    }

    ghost function ViewOf(self: ThreadRec): (v: View)
      requires Ready(self)
      reads this, threads, keys, assocs
      ensures Sound(v) && Shows(self, v)
    {
      var n := |keyTable|;
      var v := View(seq(n, i requires 0 <= i < |keyTable| reads this => keyTable[i].destructor),
                    seq(n, i requires 0 <= i < |keyTable| reads this, set k | k in keyTable => keyTable[i].live),
                    seq(n, i requires 0 <= i < |keyTable| reads this, self => Value(self.tls, keyTable[i])),
                    Numbers(chain[self]), Numbers(Rest(self)));
      ShowsSound(self, v);
      v
    }

    lemma ShowsOne(self: ThreadRec, v: View, w: View)
      requires Shows(self, v) && Shows(self, w)
      ensures v == w
    {
    }

    lemma ShowsNothing(self: ThreadRec)
      requires Valid() && Covered(null) && Named() && Within() && self in threads && keyTable == []
      requires assocs == {} && self.nextAssoc == null
      ensures Ready(self) && Shows(self, View([], [], [], [], []))
    {
      hide Column, Row, Distinct;
      assert forall a :: a in chain[self] ==> a in assocs;
      HeadIn(chain[self]);
    }

    /** Keys are told apart by their numbers. */
    lemma NumbersApart(self: ThreadRec, key: KeyRec)
      requires Ready(self) && key in keys
      ensures forall a :: a in chain[self] && a.key.number == key.number ==> a.key == key
      ensures forall a :: a in Rest(self) ==> a in chain[self]
    {
      hide Column, Row, Distinct;
      FromMembers(chain[self], self.nextAssoc);
    }

    method PerformCreate(destructor: bool, self: ThreadRec, ghost v: View)
      requires Ready(self) && Sound(v) && Shows(self, v)
      modifies Repr
      ensures Ready(self) && fresh(Repr - old(Repr)) && Disturbed(self, false)
      ensures |keyTable| == |old(keyTable)| + 1 && keyTable[..|keyTable| - 1] == old(keyTable)
      ensures keyTable[|keyTable| - 1].live && keyTable[|keyTable| - 1].destructor == destructor
      ensures Shows(self, Apply(v, CreateKey(destructor), Mine(self), false))
    {
      hide Column, Row, Distinct, Crossed, Linked, From, PairsOf;
      var key := KeyCreate(destructor);
      Repr := Repr + {key};
    }

    method DeleteFor(key: KeyRec, self: ThreadRec, ghost v: View)
      requires Ready(self) && key in keys && key.live && ShowsKeys(self, v)
      modifies Repr
      ensures Ready(self) && fresh(Repr - old(Repr)) && Disturbed(self, false)
      ensures !key.live && chain[self] == WithoutKey(old(chain[self]), key)
      ensures Rest(self) == WithoutKey(old(Rest(self)), key)
      ensures key.number < |v.live| && ShowsKeys(self, v.(live := v.live[key.number := false]))
    {
      hide Column, Row, Distinct, Crossed, Linked, From, PairsOf, WithoutKey;
      WithoutKeyMembers(Rest(self), key);
      KeyDelete(key);
    }

    method PerformDelete(key: KeyRec, self: ThreadRec, ghost v: View)
      requires Ready(self) && key in keys && key.live && Sound(v) && Shows(self, v)
      modifies Repr
      ensures Ready(self) && fresh(Repr - old(Repr)) && Disturbed(self, false)
      ensures !key.live && chain[self] == WithoutKey(old(chain[self]), key)
      ensures Rest(self) == WithoutKey(old(Rest(self)), key)
      ensures Shows(self, Apply(v, DeleteKey(key.number), Mine(self), false))
    {
      hide Valid, Covered, Named, Within, Rest, ShowsKeys, Sound, Apply, Mine, Numbers, Drop, WithoutKey;
      NumbersApart(self, key);
      NumbersWithoutKey(chain[self], key);
      NumbersWithoutKey(Rest(self), key);
      LiveShown(self, key, v);
      ApplyDelete(v, key.number, Mine(self), false);
      DeleteFor(key, self, v);
      SameKeys(self, v.(live := v.live[key.number := false]), Apply(v, DeleteKey(key.number), Mine(self), false));
    }

    lemma SameKeys(self: ThreadRec, v: View, w: View)
      requires ShowsKeys(self, v) && w.destructors == v.destructors && w.live == v.live && w.values == v.values
      ensures ShowsKeys(self, w)
    {
    }

    lemma LiveShown(self: ThreadRec, key: KeyRec, v: View)
      requires Ready(self) && key in keys && ShowsKeys(self, v)
      ensures key.number < |v.live| == |v.values| == |v.destructors|
      ensures v.live[key.number] == key.live && v.destructors[key.number] == key.destructor
    {
    }

    /** The thread's numbers are those of the keys it is associated with. */
    lemma PairedNumber(self: ThreadRec, key: KeyRec, v: View)
      requires Ready(self) && key in keys && Shows(self, v)
      ensures key.number in v.chain <==> (self, key) in Pairs()
    {
      hide Column, Row, Distinct;
      NumbersApart(self, key);
      if key.number in v.chain {
        var i :| 0 <= i < |chain[self]| && v.chain[i] == key.number;
        assert chain[self][i].key == key && chain[self][i] in assocs;
      }
      if (self, key) in Pairs() {
        var a :| a in assocs && a.thread == self && a.key == key;
        var i :| 0 <= i < |chain[self]| && chain[self][i] == a;
        assert v.chain[i] == key.number;
      }
    }

    /** The thread's own values, if it is the thread that the call names. */
    ghost function ValuesSet(self: ThreadRec, thread: ThreadRec, key: KeyRec, value: nat, v: View): View
      requires key.number < |v.values|
    {
      if thread == self then v.(values := v.values[key.number := value]) else v
    }

    method SetPlain(thread: ThreadRec, key: KeyRec, value: nat, self: ThreadRec)
      requires Ready(self) && thread in threads && key in keys && key.live
      modifies Repr
      ensures Ready(self) && fresh(Repr - old(Repr)) && Disturbed(self, thread == self)
      ensures thread.tls == old(thread.tls)[key := value]
      ensures Pairs() == old(Pairs()) + (if key.destructor && value != 0 then {(thread, key)} else {})
      ensures keyTable == old(keyTable) && forall k :: k in keys ==> k in old(keys) && k.live == old(k.live)
      ensures Rest(self) == old(Rest(self))
      ensures if thread == self && key.destructor && value != 0 && (self, key) !in old(Pairs())
              then exists a :: a in assocs && a.key == key && chain[self] == Pushed(a, old(chain[self]))
              else chain[self] == old(chain[self])
    {
      hide Column, Row, Distinct, Crossed, Linked, From, PairsOf, Pushed;
      SetSpecific(thread, key, value);
      Repr := Repr + assocs;
    }

    method SetFor(thread: ThreadRec, key: KeyRec, value: nat, self: ThreadRec, ghost v: View)
      requires Ready(self) && thread in threads && key in keys && key.live && ShowsKeys(self, v)
      modifies Repr
      ensures Ready(self) && fresh(Repr - old(Repr)) && Disturbed(self, thread == self)
      ensures thread.tls == old(thread.tls)[key := value]
      ensures Pairs() == old(Pairs()) + (if key.destructor && value != 0 then {(thread, key)} else {})
      ensures keyTable == old(keyTable) && forall k :: k in keys ==> k in old(keys) && k.live == old(k.live)
      ensures Rest(self) == old(Rest(self))
      ensures if thread == self && key.destructor && value != 0 && (self, key) !in old(Pairs())
              then exists a :: a in assocs && a.key == key && chain[self] == Pushed(a, old(chain[self]))
              else chain[self] == old(chain[self])
      ensures key.number < |v.values| && ShowsKeys(self, ValuesSet(self, thread, key, value, v))
    {
      hide Valid, Covered, Within, Rest, Pushed, Pairs;
      LiveShown(self, key, v);
      ghost var tls := self.tls;
      SetPlain(thread, key, value, self);
      assert KeysShown(v, tls);
      hide KeysShown;
      ValueShown(key, value, v, tls);
    }

    lemma ValueShown(key: KeyRec, value: nat, v: View, tls: map<KeyRec, nat>)
      requires Named() && key in keys && KeysShown(v, tls)
      ensures key.number < |v.values| && KeysShown(v.(values := v.values[key.number := value]), tls[key := value])
    {
    }

    method PerformSet(t: nat, key: KeyRec, value: nat, self: ThreadRec, own: bool, ghost v: View)
      requires Ready(self) && t < |threadTable| && (own || threadTable[t] != self) && key in keys && key.live
      requires Sound(v) && Shows(self, v)
      modifies Repr
      ensures Ready(self) && fresh(Repr - old(Repr)) && Disturbed(self, threadTable[t] == self)
      ensures threadTable[t].tls == old(threadTable[t].tls)[key := value]
      ensures Pairs() == old(Pairs()) + (if key.destructor && value != 0 then {(threadTable[t], key)} else {})
      ensures threadTable[t] == self && (self, key) in old(Pairs()) ==>
        Rest(self) == old(Rest(self)) && chain[self] == old(chain[self])
      ensures keyTable == old(keyTable) && forall k :: k in keys ==> k in old(keys) && k.live == old(k.live)
      ensures Shows(self, Apply(v, SetValue(t, key.number, value), Mine(self), own))
    {
      hide Valid, Covered, Within, Rest, ShowsKeys, Sound, Apply, Numbers, Pushed, Pairs;
      PairedNumber(self, key, v);
      LiveShown(self, key, v);
      ApplySet(v, t, key.number, value, Mine(self), own);
      ghost var c, w := chain[self], ValuesSet(self, threadTable[t], key, value, v);
      SetFor(threadTable[t], key, value, self, v);
      if a :| a in assocs && a.key == key && chain[self] == Pushed(a, c) { NumbersPushed(a, c); }
      SameKeys(self, w, Apply(v, SetValue(t, key.number, value), Mine(self), own));
    }

    /** A call by which the thread gives a key with a destructor a value, as long as
    the key is not deleted. */
    ghost predicate Settable(self: ThreadRec, op: Op)
      reads `keyTable, (set k | k in keyTable)`live
    {
      && op.SetValue? && op.thread < |threadTable| && threadTable[op.thread] == self && op.value != 0
      && op.key < |keyTable| && keyTable[op.key].live && keyTable[op.key].destructor
    }

    /** The key has the value that the call would give it. */
    ghost predicate Sticky(self: ThreadRec, op: Op)
      reads `keyTable, (set k | k in keyTable)`live, self`tls
    {
      Settable(self, op) && Value(self.tls, keyTable[op.key]) == op.value
    }

    /** A call by which the thread changes the value of a key it is associated with. */
    ghost predicate Resets(self: ThreadRec, op: Op)
      reads this, (set k | k in keyTable)`live
    {
      && op.SetValue? && op.thread < |threadTable| && threadTable[op.thread] == self
      && op.key < |keyTable| && keyTable[op.key].live && (self, keyTable[op.key]) in Pairs()
    }

    /** Calls with which a destructor gives its own key a value again, or none. */
    ghost predicate OwnCalls(self: ThreadRec, k: nat, ops: seq<Op>) {
      ops == [] ||
      (|ops| == 1 && ops[0].SetValue? && ops[0].key == k && ops[0].value != 0
       && ops[0].thread < |threadTable| && threadTable[ops[0].thread] == self)
    }

    /** Destructors keep to their own key: each is a function of its key and value,
    and nobody else does anything. */
    ghost predicate OwnKeyOnly(self: ThreadRec, turns: nat -> Turn) {
      && (forall n {:trigger turns(n)} :: turns(n).others == [])
      && (forall n, k, v {:trigger turns(n).callback(k, v)} ::
            OwnCalls(self, k, turns(n).callback(k, v)) && turns(n).callback(k, v) == turns(0).callback(k, v))
    }

    lemma AgainCalls(self: ThreadRec, turns: nat -> Turn, n: nat, k: nat, v: nat)
      requires OwnKeyOnly(self, turns) && v != 0
      ensures OwnCalls(self, k, turns(n).callback(k, v))
      ensures Again(turns, k, v) == NewValue(turns(n).callback(k, v))
    {
    }

    lemma QuietKeeps(self: ThreadRec, turns: nat -> Turn)
      requires Quiet(turns)
      ensures OwnKeyOnly(self, turns)
    {
    }

    lemma ResetsOwn(self: ThreadRec, assoc: Assoc, ops: seq<Op>)
      requires Ready(self) && assoc in assocs && assoc.thread == self
      requires OwnCalls(self, assoc.key.number, ops) && ops != []
      ensures |ops| == 1 && Resets(self, ops[0]) && keyTable[ops[0].key] == assoc.key && NewValue(ops) == ops[0].value
    {
      hide Column, Row, Distinct;
    }

    /** One call: what the thread sees of it is what the reference says.  A deletion
    takes the key out of all chains, a new key is live, and a value is set in the
    thread that the call names. */
    method PerformOne(op: Op, self: ThreadRec, own: bool, ghost v: View)
      requires Ready(self) && Sound(v) && Shows(self, v)
      modifies Repr
      ensures Shows(self, Apply(v, op, Mine(self), own))
      ensures op.DeleteKey? && op.key < |old(keyTable)| && old(keyTable[op.key].live) ==>
        && !old(keyTable)[op.key].live && chain[self] == WithoutKey(old(chain[self]), old(keyTable)[op.key])
        && Rest(self) == WithoutKey(old(Rest(self)), old(keyTable)[op.key])
      ensures op.CreateKey? ==>
        && |keyTable| == |old(keyTable)| + 1 && keyTable[..|keyTable| - 1] == old(keyTable)
        && keyTable[|keyTable| - 1].live && keyTable[|keyTable| - 1].destructor == op.destructor
      ensures op.SetValue? && op.thread < |threadTable| && (own || threadTable[op.thread] != self)
              && op.key < |old(keyTable)| && old(keyTable[op.key].live) ==>
        && threadTable[op.thread].tls == old(threadTable[op.thread].tls)[old(keyTable)[op.key] := op.value]
        && Pairs() == old(Pairs()) + (if old(keyTable)[op.key].destructor && op.value != 0
                                      then {(threadTable[op.thread], old(keyTable)[op.key])} else {})
      ensures Ready(self) && fresh(Repr - old(Repr)) && Disturbed(self, own)
      ensures own && old(Settable(self, op)) ==> Sticky(self, op)
      ensures own && old(Resets(self, op)) ==>
        && Rest(self) == old(Rest(self)) && chain[self] == old(chain[self])
        && self.tls == old(self.tls)[old(keyTable)[op.key] := op.value]
    {
      hide Valid, Covered, Rest;
      match op
      case CreateKey(destructor) =>
        PerformCreate(destructor, self, v);
      case DeleteKey(key) =>
        if key < |keyTable| && keyTable[key].live {
          PerformDelete(keyTable[key], self, v);
        }
      case SetValue(thread, key, value) =>
        if thread < |threadTable| && (own || threadTable[thread] != self) && key < |keyTable| && keyTable[key].live {
          PerformSet(thread, keyTable[key], value, self, own, v);
        }
    }

    method Perform(ops: seq<Op>, self: ThreadRec, own: bool, ghost v: View)
      requires Ready(self) && Sound(v) && Shows(self, v)
      modifies Repr
      ensures Shows(self, ApplyAll(v, ops, Mine(self), own))
      ensures Ready(self) && fresh(Repr - old(Repr))
      ensures Disturbed(self, own)
      ensures ops == [] ==>
        Rest(self) == old(Rest(self)) && self.tls == old(self.tls) && chain[self] == old(chain[self])
      ensures forall op :: ops == [] && old(Sticky(self, op)) ==> Sticky(self, op)
      ensures forall op :: own && ops == [op] && old(Settable(self, op)) ==> Sticky(self, op)
      ensures own && |ops| == 1 && old(Resets(self, ops[0])) ==>
        && Rest(self) == old(Rest(self)) && chain[self] == old(chain[self])
        && self.tls == old(self.tls)[old(keyTable)[ops[0].key] := ops[0].value]
    {
      hide Valid, Covered, Named, Rest, Settable, Sticky, Pairs, Shows, Sound, Apply;
      for n := 0 to |ops|
        invariant Shows(self, ApplyAll(v, ops[..n], Mine(self), own))
        invariant forall op :: n == 0 && old(Settable(self, op)) ==> Settable(self, op)
        invariant forall op :: n == 0 && old(Sticky(self, op)) ==> Sticky(self, op)
        invariant forall op :: own && n == 1 && ops[0] == op && old(Settable(self, op)) ==> Sticky(self, op)
        invariant Ready(self) && fresh(Repr - old(Repr))
        invariant Disturbed(self, own)
        invariant n == 0 && |ops| == 1 && old(Resets(self, ops[0])) ==>
          Resets(self, ops[0]) && keyTable == old(keyTable)
        invariant own && n == |ops| == 1 && old(Resets(self, ops[0])) ==>
          && Rest(self) == old(Rest(self)) && chain[self] == old(chain[self])
          && self.tls == old(self.tls)[old(keyTable)[ops[0].key] := ops[0].value]
        invariant n == 0 ==>
          Rest(self) == old(Rest(self)) && self.tls == old(self.tls) && chain[self] == old(chain[self])
      {
        assert ops[..n + 1][..n] == ops[..n];
        PerformOne(ops[n], self, own, ApplyAll(v, ops[..n], Mine(self), own));
      }
      assert ops[..|ops|] == ops;
    }

    /** The user's destructor runs: both locks are released and the value has been
    cleared.  Whatever it does is in callback. */
    method RunDestructor(self: ThreadRec, key: KeyRec, value: nat, callback: seq<Op>, ghost v: View)
      requires Ready(self) && Sound(v) && Shows(self, v)
      requires key.destructor && value != 0 && Value(self.tls, key) == 0
      modifies Repr
      ensures Ready(self) && fresh(Repr - old(Repr))
      ensures Disturbed(self, true) && Shows(self, ApplyAll(v, callback, Mine(self), true))
      ensures callback == [] ==>
        Rest(self) == old(Rest(self)) && self.tls == old(self.tls) && chain[self] == old(chain[self])
      ensures forall op :: callback == [op] && old(Settable(self, op)) ==> Sticky(self, op)
      ensures |callback| == 1 && old(Resets(self, callback[0])) ==>
        && Rest(self) == old(Rest(self)) && chain[self] == old(chain[self])
        && self.tls == old(self.tls)[old(keyTable)[callback[0].key] := callback[0].value]
    {
      Perform(callback, self, true, v);
    }

    /** The pass moves on, and takes the value of assoc's key. */
    method Claim(self: ThreadRec, assoc: Assoc, ghost v: View) returns (value: nat)
      requires Ready(self) && self.nextAssoc == assoc && Sound(v) && Shows(self, v)
      modifies self`nextAssoc, self`tls
      ensures v.rest != [] && First(v) == assoc.key.number && value == v.values[First(v)]
      ensures Shows(self, Claimed(v))
      ensures Ready(self) && assoc in assocs && assoc.thread == self && assoc.key.destructor
      ensures old(Rest(self)) == [assoc] + Rest(self) && forall a :: a in Rest(self) ==> a.key != assoc.key
      ensures value == Value(old(self.tls), assoc.key) && self.tls == old(self.tls)[assoc.key := 0]
      ensures forall op :: old(Settable(self, op)) ==> Settable(self, op)
    {
      hide Column, Row, Distinct, Crossed, Linked, From, PairsOf, Covered, Sound;
      ghost var rest := Rest(self);
      Advance(self, assoc);
      assert Numbers(rest)[1..] == Numbers(rest[1..]);
      value := Value(self.tls, assoc.key);
      Store(self, assoc.key, 0);
    }

    /** An association whose value is NULL is dropped. */
    method Retire(self: ThreadRec, assoc: Assoc)
      requires Ready(self) && assoc in assocs && assoc.thread == self && Value(self.tls, assoc.key) == 0
      requires assoc !in Rest(self)
      modifies `chain, `row, `assocs, threads`keys, threads`nextAssoc, keys`threads
      modifies assocs`nextKey, assocs`prevKey, assocs`nextThread, assocs`prevThread
      ensures Ready(self) && assocs <= old(assocs)
      ensures Rest(self) == old(Rest(self)) && chain[self] == Without(old(chain[self]), assoc)
      ensures old(chain[self] == [assoc] + Rest(self)) ==> chain[self] == Rest(self)
    {
      hide Column, Row, Distinct, Crossed, Linked, From, PairsOf, Without;
      WithoutHead(assoc, Rest(self));
      WithoutOther(Rest(self), assoc);
      AssocDestroy(assoc);
    }

    method RetireShown(self: ThreadRec, assoc: Assoc, ghost v: View)
      requires Ready(self) && assoc in assocs && assoc.thread == self && Value(self.tls, assoc.key) == 0
      requires assoc !in Rest(self) && Shows(self, v)
      modifies `chain, `row, `assocs, threads`keys, threads`nextAssoc, keys`threads
      modifies assocs`nextKey, assocs`prevKey, assocs`nextThread, assocs`prevThread
      ensures Ready(self) && assocs <= old(assocs)
      ensures Rest(self) == old(Rest(self)) && chain[self] == Without(old(chain[self]), assoc)
      ensures Shows(self, v.(chain := Drop(v.chain, assoc.key.number)))
      ensures old(chain[self] == [assoc] + Rest(self)) ==> chain[self] == Rest(self)
      ensures forall op :: old(Settable(self, op)) ==> Settable(self, op)
    {
      hide Valid, Covered, Named, Within, Rest, ShowsKeys, Without, Numbers, Drop, Settable;
      NumberDropped(self, assoc);
      Retire(self, assoc);
      SameKeys(self, v, v.(chain := Drop(v.chain, assoc.key.number)));
    }

    lemma NumberDropped(self: ThreadRec, assoc: Assoc)
      requires Ready(self) && assoc in assocs && assoc.thread == self
      ensures Numbers(Without(chain[self], assoc)) == Drop(Numbers(chain[self]), assoc.key.number)
    {
      hide Column, Row, Linked;
      ChainDistinct(self);
      NumbersApart(self, assoc.key);
      NumbersWithoutKey(chain[self], assoc.key);
      WithoutIsKey(chain[self], assoc);
    }

    /** The rest of a trip once both locks are held: the association is dropped
    exactly if its destructor is not called. */
    method Visit(self: ThreadRec, assoc: Assoc, iterations: nat, callback: (nat, nat) -> seq<Op>,
                 ghost v: View) returns (value: nat, called: bool)
      requires Ready(self) && self.nextAssoc == assoc && Sound(v) && Shows(self, v)
      modifies Repr
      ensures v.rest != [] && First(v) == assoc.key.number && value == v.values[First(v)]
      ensures called == Calls(value, iterations) && Shows(self, Visited(v, iterations, callback, Mine(self)))
      ensures Ready(self) && fresh(Repr - old(Repr))
      ensures old(Rest(self)) != [] && old(Rest(self))[0] == assoc && assoc.key.destructor
      ensures value == Value(old(self.tls), assoc.key)
      ensures called == (value != 0 && iterations <= PTHREAD_DESTRUCTOR_ITERATIONS)
      ensures |Rest(self)| < |old(Rest(self))| && forall a :: a in Rest(self) ==>
        a in old(Rest(self)) && a.key != assoc.key
      ensures !called && old(Rest(self) == chain[self]) ==> Rest(self) == chain[self]
      ensures !called ==> chain[self] == Without(old(chain[self]), assoc) && assoc !in chain[self]
      ensures var ops := callback(assoc.key.number, value);
              called && OwnCalls(self, assoc.key.number, ops) ==> chain[self] == old(chain[self])
      ensures var ops := callback(assoc.key.number, value);
              !called || OwnCalls(self, assoc.key.number, ops) ==>
                && Rest(self) == old(Rest(self))[1..]
                && self.tls == old(self.tls)[assoc.key := if called then NewValue(ops) else 0]
      ensures iterations <= PTHREAD_DESTRUCTOR_ITERATIONS ==>
        forall op :: callback(assoc.key.number, value) == [op] && old(Sticky(self, op)) ==> Sticky(self, op)
    {
      hide Valid, Covered, Named, Rest, Without, Resets, OwnCalls, Settable, Shows, Sound, ApplyAll;
      var k := assoc.key;
      value := Claim(self, assoc, v);
      ghost var w := Claimed(v);
      called := value != 0 && iterations <= PTHREAD_DESTRUCTOR_ITERATIONS;
      if called {
        var ops := callback(k.number, value);
        if OwnCalls(self, k.number, ops) && ops != [] { ResetsOwn(self, assoc, ops); }
        RunDestructor(self, k, value, ops, w);
      } else {
        Dropped(self, assoc);
        RetireShown(self, assoc, w);
      }
    }

    lemma Dropped(self: ThreadRec, assoc: Assoc)
      requires Ready(self)
      ensures assoc !in Without(chain[self], assoc)
    {
      WithoutMembers(chain[self], assoc);
    }

    /** A value that is not NULL keeps its association. */
    lemma StickyStays(self: ThreadRec, op: Op)
      requires Ready(self) && Sticky(self, op)
      ensures chain[self] != []
    {
      hide Column, Row, Distinct, Linked;
      assert (self, keyTable[op.key]) in Pairs();
    }

    lemma Finished(self: ThreadRec)
      requires Ready(self) && self.nextAssoc == null
      ensures Rest(self) == []
    {
      FromAt(chain[self], |chain[self]|);
    }

    lemma RestShown(self: ThreadRec, v: View)
      requires Ready(self) && Shows(self, v)
      ensures v.rest == [] <==> self.nextAssoc == null
    {
      if self.nextAssoc == null { Finished(self); } else { var i := Position(self, self.nextAssoc); }
    }

    lemma OthersQuiet(self: ThreadRec, turns: nat -> Turn, n: nat)
      ensures OwnKeyOnly(self, turns) ==> turns(n).others == []
    {
    }

    lemma ChainDistinct(self: ThreadRec)
      requires Ready(self)
      ensures Distinct(chain[self]) && KeysApart(chain[self])
    {
      forall i, j | 0 <= i < j < |chain[self]| ensures chain[self][i].key != chain[self][j].key {
        assert chain[self][i] in assocs && chain[self][j] in assocs;
      }
    }

    /** The same as part of a pass under way. */
    method Trip(self: ThreadRec, assoc: Assoc, iterations: nat, turns: nat -> Turn, turn: nat, ghost log: seq<Call>,
                ghost kept: seq<Assoc>, ghost all: Outcome, ghost v: View)
      returns (called: bool, ghost log': seq<Call>, ghost kept': seq<Assoc>)
      requires Ready(self) && self.nextAssoc == assoc && Progress(log, iterations, Rest(self), chain[self])
      requires Sound(v) && Shows(self, v)
      requires OwnKeyOnly(self, turns) && iterations <= PTHREAD_DESTRUCTOR_ITERATIONS ==>
        Undisturbed(log, iterations, kept, Rest(self), chain[self], self.tls, turns, all)
      modifies Repr
      ensures Ready(self) && fresh(Repr - old(Repr)) && |Rest(self)| < |old(Rest(self))|
      ensures |log'| == |log| + (if called then 1 else 0) && Progress(log', iterations, Rest(self), chain[self])
      ensures v.rest != [] && Shows(self, Visited(v, iterations, turns(turn).callback, Mine(self)))
      ensures called == Calls(v.values[First(v)], iterations)
      ensures SameOne(log, log', if called then [Invocation(iterations, First(v), v.values[First(v)], turn)] else [])
      ensures OwnKeyOnly(self, turns) && iterations <= PTHREAD_DESTRUCTOR_ITERATIONS ==>
        Undisturbed(log', iterations, kept', Rest(self), chain[self], self.tls, turns, all)
      ensures iterations <= PTHREAD_DESTRUCTOR_ITERATIONS ==>
        forall op :: Stubborn(turns, op) && old(Sticky(self, op)) ==> Sticky(self, op)
    {
      hide Valid, Covered, Named, Rest, Without, Progress, Undisturbed;
      hide Sticky, OwnKeyOnly, OwnCalls, Shows, Sound, Visited;
      ghost var rest, column, tls := Rest(self), chain[self], self.tls;
      ChainDistinct(self);
      var value;
      value, called := Visit(self, assoc, iterations, turns(turn).callback, v);
      log', kept' := log, kept;
      if called {
        ProgressCalled(log, iterations, rest, column, assoc.key, value, Rest(self), chain[self]);
        log', kept' := log + [Call(iterations, assoc.key, value)], kept + [assoc];
      } else {
        ProgressMoved(log, iterations, rest, column, Rest(self), chain[self]);
      }
      if OwnKeyOnly(self, turns) && iterations <= PTHREAD_DESTRUCTOR_ITERATIONS {
        assert rest == [assoc] + rest[1..];
        if called { AgainCalls(self, turns, turn, assoc.key.number, value); }
        UndisturbedVisit(log, iterations, kept, assoc, rest[1..], column, chain[self], tls, turns, all);
      }
    }

    /** The inner loop: one pass over the chain as it was at the start of the
    pass, as far as it is not taken away meanwhile. */
    method Pass(self: ThreadRec, iterations: nat, turns: nat -> Turn, start: nat, ghost bound: nat, ghost v: View)
      returns (assocsRemaining: nat, turn: nat, ghost log: seq<Call>)
      requires Ready(self) && FreeFrom(turns, bound) && Sound(v) && Shows(self, v)
      modifies Repr
      ensures var r := PassRun(v.(rest := v.chain), iterations, turns, start, bound, Mine(self));
              Shows(self, r.0) && turn == r.1 && Same(log, r.2)
      ensures Ready(self) && fresh(Repr - old(Repr))
      ensures assocsRemaining == |log| && KeysOnce(log)
      ensures forall c :: c in log ==>
        c.pass == iterations <= PTHREAD_DESTRUCTOR_ITERATIONS && c.key.destructor && c.value != 0
      ensures assocsRemaining == 0 ==> chain[self] == []
      ensures iterations > PTHREAD_DESTRUCTOR_ITERATIONS ==> assocsRemaining == 0
      ensures iterations <= PTHREAD_DESTRUCTOR_ITERATIONS ==>
        forall op :: Stubborn(turns, op) && old(Sticky(self, op)) ==> Sticky(self, op) && assocsRemaining > 0
      ensures OwnKeyOnly(self, turns) && iterations <= PTHREAD_DESTRUCTOR_ITERATIONS ==>
        Outcome(log, chain[self], self.tls) == PassOutcome(old(chain[self]), old(self.tls), turns, iterations)
    {
      hide Valid, Covered, Named, Rest, Without, Progress, Undisturbed, PassOutcome, KeysOnce, Sticky, OwnKeyOnly;
      hide Shows, Sound, Visited, ApplyAll, PassRun, Same, Calls, Ahead;
      assocsRemaining, turn, log := 0, start, [];
      Rewind(self, v);
      ghost var w := v.(rest := v.chain);
      SoundAgain(v);
      ghost var run, calls: seq<Invocation> := PassRun(w, iterations, turns, start, bound, Mine(self)), [];
      SameNone();
      AheadNone(run);
      ghost var kept: seq<Assoc> := [];
      ghost var all := PassOutcome(chain[self], self.tls, turns, iterations);
      PassStart(iterations, chain[self], self.tls, turns);
      while true
        invariant Ready(self) && fresh(Repr - old(Repr))
        invariant assocsRemaining == |log| && Progress(log, iterations, Rest(self), chain[self])
        invariant OwnKeyOnly(self, turns) && iterations <= PTHREAD_DESTRUCTOR_ITERATIONS ==>
          Undisturbed(log, iterations, kept, Rest(self), chain[self], self.tls, turns, all)
        invariant iterations <= PTHREAD_DESTRUCTOR_ITERATIONS ==>
          forall op :: Stubborn(turns, op) && old(Sticky(self, op)) ==> Sticky(self, op)
        invariant Sound(w) && Shows(self, w) && Same(log, calls)
        invariant run == Ahead(calls, PassRun(w, iterations, turns, turn, bound, Mine(self)))
        decreases |Rest(self)| + (if turn < bound then bound - turn else 0)
      {
        ghost var rest, column := Rest(self), chain[self];
        OthersQuiet(self, turns, turn);
        PassStep(w, iterations, turns, turn, bound, Mine(self));
        Perform(turns(turn).others, self, false, w);
        assert fresh(Repr - old(Repr));
        w := ApplyAll(w, turns(turn).others, Mine(self), false);
        RestShown(self, w);
        ProgressMoved(log, iterations, rest, column, Rest(self), chain[self]);
        var assoc := self.nextAssoc;
        if assoc == null {
          Finished(self);
          break;
        }
        if turns(turn).busy {
          turn := turn + 1;
          continue;
        }
        var called;
        ghost var before := log;
        called, log, kept := Trip(self, assoc, iterations, turns, turn, log, kept, all, w);
        ghost var more := if called then [Invocation(iterations, First(w), w.values[First(w)], turn)] else [];
        SameMore(before, calls, log, more);
        w := Visited(w, iterations, turns(turn).callback, Mine(self));
        AheadMore(calls, more, PassRun(w, iterations, turns, turn + 1, bound, Mine(self)));
        calls := calls + more;
        if called {
          assocsRemaining := assocsRemaining + 1;
        }
        turn := turn + 1;
      }
      AheadDone(calls, w, turn);
      PassEnd(log, iterations, chain[self]);
      forall op | Sticky(self, op) ensures chain[self] != [] { StickyStays(self, op); }
      if OwnKeyOnly(self, turns) && iterations <= PTHREAD_DESTRUCTOR_ITERATIONS {
        UndisturbedEnd(log, iterations, kept, chain[self], self.tls, turns, all);
      }
    }

    /** The loop of ptw32_callUserDestroyRoutines.  The exiting thread makes at
    most PTHREAD_DESTRUCTOR_ITERATIONS + 1 passes and calls a key's destructor at
    most once in each but the last; afterwards it has no association left.  If
    destructors keep to their own key, passes and calls are the expected ones. */
    method DestroyAll(self: ThreadRec, turns: nat -> Turn, ghost bound: nat,
                      ghost v: View) returns (iterations: nat, ghost log: seq<Call>)
      requires Ready(self) && FreeFrom(turns, bound) && Sound(v) && Shows(self, v)
      modifies Repr
      ensures var r := PassesRun(v, 1, turns, 0, bound, Mine(self)); iterations == r.0 && Same(log, r.1)
      ensures Ready(self) && 1 <= iterations <= PTHREAD_DESTRUCTOR_ITERATIONS + 1 && chain[self] == []
      ensures LogOk(log, iterations) && LastIsIdle(log, iterations)
      ensures forall op :: Stubborn(turns, op) && old(Sticky(self, op)) ==>
        iterations == PTHREAD_DESTRUCTOR_ITERATIONS + 1
      ensures OwnKeyOnly(self, turns) ==> (iterations, log) == Expected(old(chain[self]), old(self.tls), turns, 1)
    {
      hide Valid, Covered, Named, Rest, Pending, Kept, Given, Expected, LogOk, Stubborn, Sticky, Called, OwnKeyOnly;
      hide Shows, Sound, PassRun, PassesRun, Same, PassOutcome, Mine, FreeFrom, Within, KeysOnce, Then;
      iterations, log := 0, [];
      var turn := 0;
      ghost var w, calls: seq<Invocation> := v, [];
      ghost var expected := Expected(chain[self], self.tls, turns, 1);
      ghost var run := PassesRun(v, 1, turns, 0, bound, Mine(self));
      EmptyLog();
      SameNone();
      ThenNone(run);
      assert [] + expected.1 == expected.1;
      while true
        invariant Ready(self) && fresh(Repr - old(Repr))
        invariant 0 <= iterations <= PTHREAD_DESTRUCTOR_ITERATIONS && LogOk(log, iterations)
        invariant forall p: nat :: 1 <= p <= iterations ==> Called(log, p)
        invariant forall op :: Stubborn(turns, op) && old(Sticky(self, op)) ==> Sticky(self, op)
        invariant OwnKeyOnly(self, turns) ==>
          Continued(log, Expected(chain[self], self.tls, turns, iterations + 1)) == expected
        invariant Sound(w) && Shows(self, w) && Same(log, calls)
        invariant run == Then(calls, PassesRun(w, iterations + 1, turns, turn, bound, Mine(self)))
        decreases PTHREAD_DESTRUCTOR_ITERATIONS - iterations
      {
        iterations := iterations + 1;
        ExpectedPass(log, chain[self], self.tls, turns, iterations);
        PassesStep(calls, w, iterations, turns, turn, bound, Mine(self));
        SoundAgain(w);
        ghost var r := PassRun(w.(rest := w.chain), iterations, turns, turn, bound, Mine(self));
        ghost var later;
        var assocsRemaining;
        assocsRemaining, turn, later := Pass(self, iterations, turns, turn, bound, w);
        LogAppend(log, later, iterations - 1);
        CalledAppend(log, later, iterations - 1);
        SameJoin(log, calls, later, r.2);
        SameSize(later, r.2);
        log, w, calls := log + later, r.0, calls + r.2;
        if assocsRemaining == 0 {
          break;
        }
      }
    }

    /** One pass, and what is expected of the others. */
    lemma ExpectedPass(log: seq<Call>, c: seq<Assoc>, tls: map<KeyRec, nat>, turns: nat -> Turn, pass: nat)
      requires 1 <= pass <= PTHREAD_DESTRUCTOR_ITERATIONS + 1
      ensures var r := PassOutcome(c, tls, turns, pass);
              Continued(log, Expected(c, tls, turns, pass)) ==
                if pass > PTHREAD_DESTRUCTOR_ITERATIONS || r.calls == [] then (pass, log)
                else Continued(log + r.calls, Expected(r.chain, r.tls, turns, pass + 1))
    {
      PendingKept(c, tls, pass);
      hide Pending, Kept, Given;
      var r := PassOutcome(c, tls, turns, pass);
      assert log + [] == log;
      if pass <= PTHREAD_DESTRUCTOR_ITERATIONS && r.calls != [] {
        var later := Expected(r.chain, r.tls, turns, pass + 1);
        assert Expected(c, tls, turns, pass) == Continued(r.calls, later);
        assert log + (r.calls + later.1) == (log + r.calls) + later.1;
      }
    }

    lemma EmptyLog()
      ensures LogOk([], 0)
    {
    }

    /** With no association left, no key with a destructor has a value left. */
    lemma NothingLeft(self: ThreadRec)
      requires Ready(self) && chain[self] == []
      ensures forall k :: k in keys && k.live && k.destructor ==> Value(self.tls, k) == 0
    {
    }

    /** ptw32_callUserDestroyRoutines. */
    method CallUserDestroyRoutines(thread: ThreadRec?, turns: nat -> Turn,
                                   ghost bound: nat) returns (iterations: nat, ghost log: seq<Call>)
      requires thread != null ==> Ready(thread)
      requires FreeFrom(turns, bound)
      modifies Repr
      ensures thread != null ==>
        var r := PassesRun(old(ViewOf(thread)), 1, turns, 0, bound, Mine(thread)); iterations == r.0 && Same(log, r.1)
      ensures thread == null ==> iterations == 0 && log == []
      ensures thread != null ==>
        Ready(thread) && 1 <= iterations <= PTHREAD_DESTRUCTOR_ITERATIONS + 1 && chain[thread] == []
      ensures thread != null ==> forall k :: k in keys && k.live && k.destructor ==> Value(thread.tls, k) == 0
      ensures LogOk(log, iterations) && forall k :: CallsOf(log, k) <= PTHREAD_DESTRUCTOR_ITERATIONS
      ensures thread != null ==>
        && LastIsIdle(log, iterations)
        && forall op :: Stubborn(turns, op) && old(Sticky(thread, op)) ==>
             iterations == PTHREAD_DESTRUCTOR_ITERATIONS + 1
      ensures thread != null && OwnKeyOnly(thread, turns) ==>
        && (iterations, log) == Expected(old(chain[thread]), old(thread.tls), turns, 1)
        && (iterations == PTHREAD_DESTRUCTOR_ITERATIONS + 1
            <==> Lasts(old(chain[thread]), old(thread.tls), turns, PTHREAD_DESTRUCTOR_ITERATIONS - 1))
      ensures thread != null && Quiet(turns) ==>
        && log == Pending(old(chain[thread]), old(thread.tls), 1)
        && iterations == if log == [] then 1 else 2
    {
      hide Valid, Covered, Named, Rest, Pending, Kept, Given, Expected, Quiet, Stubborn, Sticky, LastIsIdle, OwnKeyOnly;
      iterations, log := 0, [];
      if thread != null {
        ChainDistinct(thread);
        PassesIff(chain[thread], thread.tls, turns, 1, PTHREAD_DESTRUCTOR_ITERATIONS - 1);
        if Quiet(turns) {
          QuietKeeps(thread, turns);
          QuietPasses(chain[thread], thread.tls, turns);
        }
        iterations, log := DestroyAll(thread, turns, bound, ViewOf(thread));
        NothingLeft(thread);
      }
      forall k ensures CallsOf(log, k) <= PTHREAD_DESTRUCTOR_ITERATIONS {
        CallsBounded(log, k, iterations);
      }
    }
  }

  /** One thread and one key with a destructor. */
  method OneKey() returns (grid: Grid, thread: ThreadRec, key: KeyRec)
    ensures fresh(grid) && fresh(thread) && fresh(key) && key.live && key.destructor
    ensures grid.threadTable == [thread] && grid.keyTable == [key]
    ensures grid.threads == {thread} && grid.keys == {key} && grid.assocs == {}
    ensures grid.Valid() && grid.Covered(null) && grid.Named() && thread in grid.chain
  {
    hide Column, Row, Distinct, Crossed, Linked, Grid.Covered, Grid.Valid, Grid.Pairs;
    thread := new ThreadRec();
    grid := new Grid([thread]);
    assert grid.threads == {thread};
    key := grid.KeyCreate(true);
    grid.HasColumn(thread);
  }

  /** The same with a value. */
  method OneValue() returns (grid: Grid, thread: ThreadRec)
    ensures fresh(grid.Repr) && grid.Ready(thread) && grid.Sticky(thread, SetValue(0, 0, 1))
  {
    hide Column, Row, Distinct, Crossed, Linked, Grid.Covered, Grid.Valid, Grid.Pairs, Grid.Rest;
    var key;
    grid, thread, key := OneKey();
    grid.SetSpecific(thread, key, 1);
    grid.HasColumn(thread);
    grid.Repr := {grid, thread, key} + grid.assocs;
  }

  /** The additional pass is needed: a destructor that gives its key a value again
  every time it is called makes a thread use up all the others. */
  method StubbornDestructor() returns (iterations: nat)
    ensures iterations == PTHREAD_DESTRUCTOR_ITERATIONS + 1
  {
    hide Grid.Ready, Grid.Sticky;
    var grid, thread := OneValue();
    var turns := (n: nat) => Turn([], false, (k: nat, v: nat) => [SetValue(0, 0, 1)]);
    assert Stubborn(turns, SetValue(0, 0, 1));
    ghost var log;
    iterations, log := grid.CallUserDestroyRoutines(thread, turns, 0);
  }

  method OneThread() returns (grid: Grid, thread: ThreadRec)
    ensures fresh(grid.Repr) && grid.Ready(thread) && grid.Shows(thread, Made(0))
    ensures grid.Mine(thread) == [true]
  {
    hide Column, Row, Distinct, Crossed, Linked, Grid.Pairs, Grid.Rest, Grid.ShowsKeys;
    thread := new ThreadRec();
    grid := new Grid([thread]);
    grid.ShowsNothing(thread);
  }

  /** A thread with two values, both with destructors. */
  method TwoValues() returns (grid: Grid, thread: ThreadRec)
    ensures fresh(grid.Repr) && grid.Ready(thread) && grid.Shows(thread, TWO_VALUES) && grid.Mine(thread) == [true]
  {
    hide Grid.Ready, Grid.Shows, Grid.Disturbed, Sound, ApplyAll, Grid.Settable, Grid.Sticky, Grid.Resets, Grid.Rest;
    grid, thread := OneThread();
    TwoKeys();
    grid.Perform(TWO_KEYS, thread, true, Made(0));
  }

  /** A destructor that deletes another key keeps that key's destructor from being
  called, although it has a value. */
  method DeletingDestructor() returns (iterations: nat, ghost log: seq<Call>)
    ensures iterations == 2 && |log| == 1 && log[0].key.number == 1
  {
    hide Grid.Ready, Grid.Shows, PassesRun;
    var grid, thread := TwoValues();
    var turns := (n: nat) => DeletesFirst();
    OneCall(turns);
    grid.ShowsOne(thread, TWO_VALUES, grid.ViewOf(thread));
    iterations, log := grid.CallUserDestroyRoutines(thread, turns, 0);
  }
}
