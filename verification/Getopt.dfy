/** The argument scanner of getoptw.c: the block exchange, initialization, and the
call that finds the next option, permutes the argument vector on the way and
decodes short and long options.

A reference parser reads the arguments once, from left to right, and never moves
anything.  Every call of the scanner gives the reference's next answer, and the
run leaves the arguments stably partitioned the way the reference labels them. */
module Getopt {
  import opened Threads

  // ------------------------------------------------------- the block exchange

  /** The blocks s[i..i + len] and s[j..j + len] swapped. */
  ghost function Swapped<T>(s: seq<T>, i: nat, j: nat, len: nat): (r: seq<T>)
    requires i + len <= j && j + len <= |s|
  {
    s[..i] + s[j..j + len] + s[i + len..j] + s[i..i + len] + s[j + len..]
  }

  lemma SwappedAt<T>(s: seq<T>, i: nat, j: nat, len: nat)
    requires i + len <= j && j + len <= |s|
    ensures var r := Swapped(s, i, j, len);
            && |r| == |s| && (forall x :: 0 <= x < |s| && !(i <= x < i + len) && !(j <= x < j + len) ==> r[x] == s[x])
            && (forall x :: i <= x < i + len ==> r[x] == s[x + (j - i)])
            && (forall x :: j <= x < j + len ==> r[x] == s[x - (j - i)])
  {
  }

  lemma SwappedElements<T>(s: seq<T>, i: nat, j: nat, len: nat, r: seq<T>)
    requires i + len <= j && j + len <= |s| == |r|
    requires forall x :: 0 <= x < |s| && !(i <= x < i + len) && !(j <= x < j + len) ==> r[x] == s[x]
    requires forall x :: i <= x < i + len ==> r[x] == s[x + (j - i)]
    requires forall x :: j <= x < j + len ==> r[x] == s[x - (j - i)]
    ensures r == Swapped(s, i, j, len)
  {
    assert |Swapped(s, i, j, len)| == |r|;
    forall x | 0 <= x < |r|
      ensures r[x] == Swapped(s, i, j, len)[x]
    {
    }
  }

  /** Swaps a[i..i + len] with a[j..j + len], element by element. */
  method SwapBlocks<T>(a: array<T>, i: nat, j: nat, len: nat)
    requires i + len <= j && j + len <= a.Length
    modifies a
    ensures a[..] == Swapped(old(a[..]), i, j, len)
  {
    hide Swapped;
    ghost var was := a[..];
    var k := 0;
    while k < len
      invariant 0 <= k <= len
      invariant forall x :: 0 <= x < a.Length && !(i <= x < i + k) && !(j <= x < j + k) ==> a[x] == was[x]
      invariant forall x :: i <= x < i + k ==> a[x] == was[x + (j - i)]
      invariant forall x :: j <= x < j + k ==> a[x] == was[x - (j - i)]
    {
      var tem := a[i + k];
      a[i + k] := a[j + k];
      a[j + k] := tem;
      k := k + 1;
    }
    SwappedElements(was, i, j, len, a[..]);
  }

  /** Adjacent blocks A = s[f..l] and B = s[l..o] in the other order. */
  function Exchanged<T>(s: seq<T>, f: nat, l: nat, o: nat): (r: seq<T>)
    requires f <= l <= o <= |s|
  {
    s[..f] + s[l..o] + s[f..l] + s[o..]
  }

  /** Where the element that belongs at x is, before [bottom, middle) and
  [middle, top) change places. */
  ghost function Source(bottom: nat, middle: nat, top: nat, x: nat): (r: nat)
    requires bottom <= middle <= top
    ensures r == x || bottom <= r < top
  {
    if bottom <= x < bottom + (top - middle) then x + (middle - bottom)
    else if bottom + (top - middle) <= x < top then x - (top - middle)
    else x
  }

  /** Part of the exchange still to be done: all but [bottom, top) is in place,
  and swapping the two blocks left inside gives what belongs there. */
  ghost predicate Remaining<T>(s: seq<T>, goal: seq<T>, bottom: int, middle: int, top: int) {
    && 0 <= bottom <= middle <= top <= |s| == |goal|
    && forall x :: 0 <= x < |s| ==> goal[x] == s[Source(bottom, middle, top, x)]
  }

  /** The bottom block is the short one. */
  lemma BottomMoved<T>(s: seq<T>, s': seq<T>, goal: seq<T>, bottom: nat, middle: nat, top: nat)
    requires Remaining(s, goal, bottom, middle, top) && middle - bottom < top - middle
    requires s' == Swapped(s, bottom, top - (middle - bottom), middle - bottom)
    ensures Remaining(s', goal, bottom, middle, top - (middle - bottom))
  {
    hide Swapped;
    SwappedAt(s, bottom, top - (middle - bottom), middle - bottom);
    forall x | 0 <= x < |s|
      ensures goal[x] == s'[Source(bottom, middle, top - (middle - bottom), x)]
    {
    }
  }

  /** The top block is the short one. */
  lemma TopMoved<T>(s: seq<T>, s': seq<T>, goal: seq<T>, bottom: nat, middle: nat, top: nat)
    requires Remaining(s, goal, bottom, middle, top) && top - middle <= middle - bottom
    requires s' == Swapped(s, bottom, middle, top - middle)
    ensures Remaining(s', goal, bottom + (top - middle), middle, top)
  {
    hide Swapped;
    SwappedAt(s, bottom, middle, top - middle);
    forall x | 0 <= x < |s|
      ensures goal[x] == s'[Source(bottom + (top - middle), middle, top, x)]
    {
    }
  }

  lemma ExchangeStart<T>(s: seq<T>, f: nat, l: nat, o: nat)
    requires f <= l <= o <= |s|
    ensures Remaining(s, Exchanged(s, f, l, o), f, l, o)
  {
  }

  lemma ExchangeEnd<T>(s: seq<T>, goal: seq<T>, bottom: nat, middle: nat, top: nat)
    requires Remaining(s, goal, bottom, middle, top) && (middle == top || bottom == middle)
    ensures s == goal
  {
  }

  /** The loop of exchange: [bottom, middle) and [middle, top) change places. */
  method Rotate<T>(argv: array<T>, f: nat, l: nat, o: nat)
    requires f <= l <= o <= argv.Length
    modifies argv
    ensures argv[..] == Exchanged(old(argv[..]), f, l, o)
  {
    hide Exchanged, Remaining, Swapped;
    var bottom, middle, top := f, l, o;
    ghost var goal := Exchanged(argv[..], f, l, o);
    ExchangeStart(argv[..], f, l, o);
    while top > middle && middle > bottom
      invariant 0 <= bottom <= middle <= top <= argv.Length && Remaining(argv[..], goal, bottom, middle, top)
      decreases top - bottom
    {
      ghost var was := argv[..];
      if top - middle > middle - bottom {
        var len := middle - bottom;
        SwapBlocks(argv, bottom, top - len, len);
        BottomMoved(was, argv[..], goal, bottom, middle, top);
        top := top - len;
      } else {
        var len := top - middle;
        SwapBlocks(argv, bottom, middle, len);
        TopMoved(was, argv[..], goal, bottom, middle, top);
        bottom := bottom + len;
      }
    }
    ExchangeEnd(argv[..], goal, bottom, middle, top);
  }

  // ------------------------------------------------------ decoding one option

  datatype Ordering = RequireOrder | Permute | ReturnInOrder

  datatype LongOption = LongOption(
    name: string,
    hasArg: nat,         // no_argument 0, required_argument 1, optional_argument 2
    flag: Option<nat>,   // which of the caller's variables is to be set, if any
    val: int)

  datatype Config = Config(longopts: Option<seq<LongOption>>, longOnly: bool)

  /** What one call hands to the caller: the value returned, optarg, and optopt,
  *longind and *flag if they are set. */
  datatype Answer = Answer(
    ret: int,
    optarg: Option<string>,
    optopt: Option<int>,
    longind: Option<nat>,
    stored: Option<(nat, int)>)

  /** How an option was decoded: the answer, how many arguments are used up, and
  the characters of the current argument that are left if it is not.  More may be
  used up than there are: see Overruns. */
  datatype Decoded = Decoded(answer: Answer, width: nat, next: string)

  /** The character at i; the terminator behind the last one. */
  function At(s: string, i: nat): char {
    if i < |s| then s[i] else '\0'
  }

  /** strchr: the string from the first c on; empty if there is none. */
  function StrChr(s: string, c: char): string {
    if s == "" || s[0] == c then s else StrChr(s[1..], c)
  }

  /** NONOPTION_P. */
  predicate Nonoption(e: string) {
    At(e, 0) != '-' || At(e, 1) == '\0'
  }

  /** The part of a long option in front of an equals sign. */
  function NameLength(s: string): (n: nat)
    ensures n <= |s|
  {
    if s == "" || s[0] == '=' then 0 else 1 + NameLength(s[1..])
  }

  datatype Match = NoMatch | Ambiguous | Found(index: nat)

  predicate Abbreviates(name: string, o: LongOption) { name <= o.name }

  /** Abbreviations of equivalent options do not clash, unless long_only. */
  predicate Clash(o: LongOption, first: LongOption, longOnly: bool) {
    longOnly || first.hasArg != o.hasArg || first.flag != o.flag || first.val != o.val
  }

  predicate Hit(name: string, o: LongOption, exact: bool) {
    if exact then o.name == name else Abbreviates(name, o)
  }

  /** The first option with this name, or the first that it abbreviates; the
  number of options if there is none. */
  function FirstHit(longopts: seq<LongOption>, name: string, exact: bool): (i: nat)
    ensures i <= |longopts| && (i < |longopts| ==> Hit(name, longopts[i], exact))
    ensures forall j :: 0 <= j < i ==> !Hit(name, longopts[j], exact)
  {
    if longopts == [] || Hit(name, longopts[0], exact) then 0
    else
      var i := FirstHit(longopts[1..], name, exact);
      assert forall j :: 0 < j < i + 1 ==> longopts[j] == longopts[1..][j - 1];
      i + 1
  }

  lemma FirstHitUnique(longopts: seq<LongOption>, name: string, exact: bool, i: nat)
    requires i <= |longopts| && (i < |longopts| ==> Hit(name, longopts[i], exact))
    requires forall j :: 0 <= j < i ==> !Hit(name, longopts[j], exact)
    ensures FirstHit(longopts, name, exact) == i
  {
  }

  /** A later option that name abbreviates, and that clashes with the first. */
  predicate Clashes(longopts: seq<LongOption>, name: string, longOnly: bool, first: int, j: int) {
    0 <= first < j < |longopts| && Abbreviates(name, longopts[j]) && Clash(longopts[j], longopts[first], longOnly)
  }

  /** An exact match wins; otherwise the first option that name abbreviates does,
  unless a later one that it abbreviates clashes with it. */
  ghost function LongMatch(longopts: seq<LongOption>, name: string, longOnly: bool): (m: Match)
    ensures m.Found? ==> m.index < |longopts|
  {
    var e := FirstHit(longopts, name, true);
    var i := FirstHit(longopts, name, false);
    if e < |longopts| then Found(e)
    else if i == |longopts| then NoMatch
    else if exists j :: Clashes(longopts, name, longOnly, i, j) then Ambiguous
    else Found(i)
  }

  /** The search through the table of long options. */
  method FindLong(longopts: seq<LongOption>, name: string, longOnly: bool) returns (m: Match)
    ensures m == LongMatch(longopts, name, longOnly)
  {
    var pfound: Option<nat> := None;
    var ambig := false;
    var p := 0;
    while p < |longopts|
      invariant 0 <= p <= |longopts|
      invariant forall j :: 0 <= j < p ==> !Hit(name, longopts[j], true)
      invariant pfound == None ==> !ambig && forall j :: 0 <= j < p ==> !Hit(name, longopts[j], false)
      invariant pfound.Some? ==>
        && pfound.value < p && Hit(name, longopts[pfound.value], false)
        && (forall j :: 0 <= j < pfound.value ==> !Hit(name, longopts[j], false))
        && (ambig <==> exists j :: j < p && Clashes(longopts, name, longOnly, pfound.value, j))
    {
      assert pfound != None ==>
        (Clashes(longopts, name, longOnly, pfound.value, p) <==>
         name <= longopts[p].name && Clash(longopts[p], longopts[pfound.value], longOnly));
      if name <= longopts[p].name {
        if |name| == |longopts[p].name| {
          FirstHitUnique(longopts, name, true, p);
          return Found(p);
        } else if pfound == None {
          pfound := Some(p);
        } else if Clash(longopts[p], longopts[pfound.value], longOnly) {
          ambig := true;
        }
      }
      p := p + 1;
    }
    FirstHitUnique(longopts, name, true, |longopts|);
    FirstHitUnique(longopts, name, false, if pfound == None then |longopts| else pfound.value);
    m := if ambig then Ambiguous else if pfound == None then NoMatch else Found(pfound.value);
  }

  /** The loop that finds the end of the option's name. */
  method FindNameEnd(s: string) returns (n: nat)
    ensures n == NameLength(s)
  {
    n := 0;
    while n < |s| && s[n] != '='
      invariant n <= |s| && NameLength(s) == n + NameLength(s[n..])
    {
      n := n + 1;
    }
  }

  function Reply(ret: int, optarg: Option<string>, optopt: Option<int>): Answer {
    Answer(ret, optarg, optopt, None, None)
  }

  /** The answer to a missing argument. */
  function Missing(optstring: string): int {
    if At(optstring, 0) == ':' then ':' as int else '?' as int
  }

  function Table(cfg: Config): seq<LongOption> {
    if cfg.longopts == None then [] else cfg.longopts.value
  }

  /** The option -W, declared by "W;": the text behind it in its argument, or the
  argument behind that, is a long option. */
  ghost function DecodeW(cfg: Config, optstring: string, text: string, behind: seq<string>): (d: Decoded)
    ensures 1 <= d.width <= 2 + |behind| && d.next == ""
  {
    if text == "" && behind == [] then Decoded(Reply(Missing(optstring), None, Some('W' as int)), 1, "")
    else
      var (arg, used) := if text != "" then (text, 1) else (behind[0], 2);
      var n := NameLength(arg);
      match LongMatch(Table(cfg), arg[..n], true)
      case Ambiguous => Decoded(Reply('?' as int, Some(arg), None), used + 1, "")
      case NoMatch => Decoded(Reply('W' as int, Some(arg), None), used, "")
      case Found(i) => DecodeNamed(optstring, Table(cfg)[i], i, arg, n, used, behind)
  }

  /** The same, when the long option was found; its name is the first n characters
  of arg, and used arguments are used up so far. */
  function DecodeNamed(optstring: string, o: LongOption, index: nat, arg: string, n: nat, used: nat,
                       behind: seq<string>): (d: Decoded)
    requires n <= |arg| && 1 <= used <= 1 + |behind|
    ensures 1 <= d.width <= 1 + |behind| && d.next == ""
  {
    var ret := if o.flag == None then o.val else 0;
    var stored := if o.flag == None then None else Some((o.flag.value, o.val));
    if n < |arg| && o.hasArg == 0 then Decoded(Reply('?' as int, Some(arg), None), used, "")
    else if n < |arg| then Decoded(Answer(ret, Some(arg[n + 1..]), None, Some(index), stored), used, "")
    else if o.hasArg != 1 then Decoded(Answer(ret, Some(arg), None, Some(index), stored), used, "")
    else if used > |behind| then Decoded(Reply(Missing(optstring), Some(arg), None), used, "")
    else Decoded(Answer(ret, Some(behind[used - 1]), None, Some(index), stored), used + 1, "")
  }

  /** One short option: the first of the characters next. */
  ghost function DecodeShort(cfg: Config, optstring: string, next: string, behind: seq<string>): (d: Decoded)
    requires next != ""
    ensures d.width <= 2 + |behind| && |d.next| < |next| && (d.width == 0 <==> d.next != "")
  {
    var c, text := next[0], next[1..];
    var temp := StrChr(optstring, c);
    var last := if text == "" then 1 else 0;
    if temp == "" || c == ':' then Decoded(Reply('?' as int, None, Some(c as int)), last, text)
    else if temp[0] == 'W' && At(temp, 1) == ';' then DecodeW(cfg, optstring, text, behind)
    else if At(temp, 1) != ':' then Decoded(Reply(c as int, None, None), last, text)
    else if At(temp, 2) == ':' then Decoded(Reply(c as int, if text == "" then None else Some(text), None), 1, "")
    else if text != "" then Decoded(Reply(c as int, Some(text), None), 1, "")
    else if behind == [] then Decoded(Reply(Missing(optstring), None, Some(c as int)), 1, "")
    else Decoded(Reply(c as int, Some(behind[0]), None), 2, "")
  }

  /** A long option that was found in the table. */
  function DecodeFound(optstring: string, o: LongOption, index: nat, text: Option<string>,
                       behind: seq<string>): (d: Decoded)
    ensures 1 <= d.width <= 1 + |behind| && d.next == ""
  {
    var ret := if o.flag == None then o.val else 0;
    var stored := if o.flag == None then None else Some((o.flag.value, o.val));
    if text.Some? && o.hasArg == 0 then Decoded(Reply('?' as int, None, Some(o.val)), 1, "")
    else if text.Some? then Decoded(Answer(ret, text, None, Some(index), stored), 1, "")
    else if o.hasArg != 1 then Decoded(Answer(ret, None, None, Some(index), stored), 1, "")
    else if behind == [] then Decoded(Reply(Missing(optstring), None, Some(o.val)), 1, "")
    else Decoded(Answer(ret, Some(behind[0]), None, Some(index), stored), 2, "")
  }

  /** There is an argument for the option: attached to a name that takes one, or
  behind a name that needs one. */
  predicate GetsArgument(o: LongOption, attached: bool, behind: seq<string>) {
    if attached then o.hasArg != 0 else o.hasArg == 1 && behind != []
  }

  lemma NamedLikeLong(optstring: string, o: LongOption, index: nat, arg: string, n: nat, behind: seq<string>)
    requires n <= |arg|
    ensures var text := if n < |arg| then Some(arg[n + 1..]) else None;
            var w := DecodeNamed(optstring, o, index, arg, n, 1, behind);
            var l := DecodeFound(optstring, o, index, text, behind);
            && w.width == l.width && w.answer.ret == l.answer.ret
            && w.answer.longind == l.answer.longind && w.answer.stored == l.answer.stored
            && (w == l <==> GetsArgument(o, n < |arg|, behind))
  {
  }

  /** Is the argument to be looked up as a long option first? */
  predicate TriesLong(cfg: Config, optstring: string, elem: string) {
    && cfg.longopts.Some?
    && (At(elem, 1) == '-' || (cfg.longOnly && (At(elem, 2) != '\0' || StrChr(optstring, At(elem, 1)) == "")))
  }

  /** The next option in the argument elem, of which the characters next are left;
  behind it stand these arguments. */
  ghost function Decode(cfg: Config, optstring: string, elem: string, next: string, behind: seq<string>): (d: Decoded)
    requires next != ""
    ensures d.width <= 2 + |behind| && |d.next| < |next| && (d.width == 0 <==> d.next != "")
  {
    if !TriesLong(cfg, optstring, elem) then DecodeShort(cfg, optstring, next, behind)
    else
      var n := NameLength(next);
      match LongMatch(cfg.longopts.value, next[..n], cfg.longOnly)
      case Ambiguous => Decoded(Reply('?' as int, None, Some(0)), 1, "")
      case Found(i) =>
        var text := if n < |next| then Some(next[n + 1..]) else None;
        DecodeFound(optstring, cfg.longopts.value[i], i, text, behind)
      case NoMatch =>
        if !cfg.longOnly || At(elem, 1) == '-' || StrChr(optstring, next[0]) == ""
        then Decoded(Reply('?' as int, None, Some(0)), 1, "")
        else DecodeShort(cfg, optstring, next, behind)
  }

  /** A name that is clear where all abbreviated options clash is clear anyway. */
  lemma ClearAnyway(longopts: seq<LongOption>, name: string, longOnly: bool)
    ensures var strict := LongMatch(longopts, name, true);
            && (strict.Found? ==> LongMatch(longopts, name, longOnly) == strict)
            && (strict == NoMatch <==> LongMatch(longopts, name, longOnly) == NoMatch)
  {
    var i := FirstHit(longopts, name, false);
    forall j | Clashes(longopts, name, longOnly, i, j) ensures Clashes(longopts, name, true, i, j) {}
  }

  /** How far -Wfoo is the same as --foo: if foo is clear, the return value, the table
  index, the flag and the width are; all of it is if moreover there is an argument
  for the option, and in no other case. */
  lemma WLikeLong(cfg: Config, optstring: string, foo: string, behind: seq<string>)
    requires foo != "" && cfg.longopts.Some?
    ensures var (w, l) := (DecodeW(cfg, optstring, foo, behind), Decode(cfg, optstring, "--" + foo, foo, behind));
            var n := NameLength(foo);
            var m := LongMatch(Table(cfg), foo[..n], true);
            && (w == l <==> m.Found? && GetsArgument(Table(cfg)[m.index], n < |foo|, behind))
            && (m.Found? ==> && w.width == l.width && w.answer.ret == l.answer.ret
                             && w.answer.longind == l.answer.longind && w.answer.stored == l.answer.stored)
  {
    var longopts, n := cfg.longopts.value, NameLength(foo);
    ClearAnyway(longopts, foo[..n], cfg.longOnly);
    assert At("--" + foo, 1) == '-';
    hide LongMatch, DecodeNamed, DecodeFound, DecodeShort, GetsArgument;
    match LongMatch(longopts, foo[..n], cfg.longOnly) {
      case Found(i) =>
        var text := if n < |foo| then Some(foo[n + 1..]) else None;
        NamedLikeLong(optstring, longopts[i], i, foo, n, behind);
        LongOptopt(optstring, longopts[i], i, text, behind);
      case _ =>
    }
  }

  /** -W foo is the same as -Wfoo, but for the argument foo. */
  lemma WApart(cfg: Config, optstring: string, foo: string, behind: seq<string>)
    requires foo != ""
    ensures var w := DecodeW(cfg, optstring, foo, behind);
            DecodeW(cfg, optstring, "", [foo] + behind) == w.(width := w.width + 1)
  {
    var n := NameLength(foo);
    match LongMatch(Table(cfg), foo[..n], true) {
      case Found(i) => NamedApart(optstring, Table(cfg)[i], i, foo, n, behind);
      case _ =>
    }
  }

  lemma NamedApart(optstring: string, o: LongOption, index: nat, arg: string, n: nat, behind: seq<string>)
    requires n <= |arg|
    ensures var w := DecodeNamed(optstring, o, index, arg, n, 1, behind);
            DecodeNamed(optstring, o, index, arg, n, 2, [arg] + behind) == w.(width := w.width + 1)
  {
  }

  /** An option that takes no argument: -Wfoo hands its own text to the caller. */
  lemma WExample()
    ensures var cfg := Config(Some([LongOption("foo", 0, None, 1)]), false);
            && DecodeW(cfg, "W;", "foo", []) == Decoded(Answer(1, Some("foo"), None, Some(0), None), 1, "")
            && Decode(cfg, "W;", "--foo", "foo", []) == Decoded(Answer(1, None, None, Some(0), None), 1, "")
  {
    var longopts := [LongOption("foo", 0, None, 1)];
    assert NameLength("foo") == 3 by { assert "foo"[1..] == "oo" && "oo"[1..] == "o"; }
    assert "foo"[..3] == "foo";
    FirstHitUnique(longopts, "foo", true, 0);
    assert At("--foo", 1) == '-';
  }

  lemma LongOptopt(optstring: string, o: LongOption, index: nat, text: Option<string>, behind: seq<string>)
    ensures var a := DecodeFound(optstring, o, index, text, behind).answer; a.longind != None || a.optopt != None
  {
  }

  /** The text of an option -W is the end of the last argument, and ambiguous: the
  scanner uses up one argument more than there is. */
  ghost predicate Overruns(cfg: Config, optstring: string, elem: string, next: string, behind: seq<string>)
    requires next != ""
  {
    && next[0] == 'W' && At(StrChr(optstring, 'W'), 1) == ';' && |behind| == (if |next| == 1 then 1 else 0)
    && (TriesLong(cfg, optstring, elem) ==>
          && cfg.longOnly && At(elem, 1) != '-'
          && LongMatch(Table(cfg), next[..NameLength(next)], cfg.longOnly) == NoMatch)
    && var arg := if |next| == 1 then behind[0] else next[1..];
       LongMatch(Table(cfg), arg[..NameLength(arg)], true) == Ambiguous
  }

  lemma StrChrFinds(s: string, c: char)
    ensures StrChr(s, c) != "" ==> StrChr(s, c)[0] == c
    ensures StrChr(s, c) != "" <==> c in s
  {
  }

  /** No other option uses up more arguments than there are. */
  lemma OverrunIff(cfg: Config, optstring: string, elem: string, next: string, behind: seq<string>)
    requires next != ""
    ensures Decode(cfg, optstring, elem, next, behind).width > 1 + |behind| <==>
      Overruns(cfg, optstring, elem, next, behind)
  {
    hide LongMatch, DecodeW, DecodeFound;
    StrChrFinds(optstring, next[0]);
    OverrunW(cfg, optstring, next[1..], behind);
  }

  lemma OverrunW(cfg: Config, optstring: string, text: string, behind: seq<string>)
    ensures DecodeW(cfg, optstring, text, behind).width > 1 + |behind| <==>
      && |behind| == (if text == "" then 1 else 0)
      && var arg := if text == "" then behind[0] else text;
         LongMatch(Table(cfg), arg[..NameLength(arg)], true) == Ambiguous
  {
    hide LongMatch, DecodeNamed;
  }

  // ------------------------------------------------------ the reference parser

  const END: int := -1

  /** Which arguments are options or arguments of options, the answers, and whether
  the last of them used up more arguments than there are. */
  datatype Parsed = Parsed(labels: seq<bool>, answers: seq<Answer>, overrun: bool)

  function Repeat(b: bool, n: nat): (r: seq<bool>)
    ensures |r| == n && forall i :: 0 <= i < n ==> r[i] == b
  {
    seq(n, i => b)
  }

  /** The characters of an option argument behind the punctuation. */
  function Characters(cfg: Config, elem: string): (next: string)
    requires !Nonoption(elem) && elem != "--"
    ensures next != "" && |next| < |elem|
  {
    elem[if cfg.longopts.Some? && At(elem, 1) == '-' then 2 else 1..]
  }

  /** One pass over the arguments rest, of which the first has the characters next
  left, if any.  The first call uses the option string now, the others later. */
  ghost function Parse(cfg: Config, ordering: Ordering, now: string, later: string, rest: seq<string>,
                       next: string): (p: Parsed)
    ensures |p.labels| == |rest|
    decreases |rest|, if rest == [] then 0 else if next == "" then |rest[0]| + 1 else |next|
  {
    if rest == [] then Parsed([], [], false)
    else if next != "" then
      var d := Decode(cfg, now, rest[0], next, rest[1..]);
      if d.width > |rest| then Parsed(Repeat(true, |rest|), [d.answer], true)
      else
        var p := Parse(cfg, ordering, later, later, rest[d.width..], d.next);
        Parsed(Repeat(true, d.width) + p.labels, [d.answer] + p.answers, p.overrun)
    else if Nonoption(rest[0]) then
      if ordering == RequireOrder then Parsed(Repeat(false, |rest|), [], false)
      else if ordering == Permute then
        var p := Parse(cfg, ordering, now, later, rest[1..], "");
        p.(labels := [false] + p.labels)
      else
        var p := Parse(cfg, ordering, later, later, rest[1..], "");
        Parsed([true] + p.labels, [Reply(1, Some(rest[0]), None)] + p.answers, p.overrun)
    else if rest[0] == "--" then Parsed([true] + Repeat(false, |rest| - 1), [], false)
    else Parse(cfg, ordering, now, later, rest, Characters(cfg, rest[0]))
  }

  /** The cases of Parse, for proofs that unfold it once. */
  lemma ParseStep(cfg: Config, ordering: Ordering, now: string, later: string, rest: seq<string>, next: string)
    ensures rest == [] ==> Parse(cfg, ordering, now, later, rest, next) == Parsed([], [], false)
    ensures rest != [] && next != "" ==>
      var d := Decode(cfg, now, rest[0], next, rest[1..]);
      if d.width > |rest|
      then Parse(cfg, ordering, now, later, rest, next) == Parsed(Repeat(true, |rest|), [d.answer], true)
      else
        var p := Parse(cfg, ordering, later, later, rest[d.width..], d.next);
        Parse(cfg, ordering, now, later, rest, next)
        == Parsed(Repeat(true, d.width) + p.labels, [d.answer] + p.answers, p.overrun)
    ensures rest != [] && next == "" && Nonoption(rest[0]) ==>
      Parse(cfg, ordering, now, later, rest, next) ==
        if ordering == RequireOrder then Parsed(Repeat(false, |rest|), [], false)
        else if ordering == Permute then
          var p := Parse(cfg, ordering, now, later, rest[1..], "");
          p.(labels := [false] + p.labels)
        else
          var p := Parse(cfg, ordering, later, later, rest[1..], "");
          Parsed([true] + p.labels, [Reply(1, Some(rest[0]), None)] + p.answers, p.overrun)
    ensures rest != [] && next == "" && rest[0] == "--" ==>
      && !Nonoption(rest[0])
      && Parse(cfg, ordering, now, later, rest, next) == Parsed([true] + Repeat(false, |rest| - 1), [], false)
    ensures rest != [] && next == "" && !Nonoption(rest[0]) && rest[0] != "--" ==>
      Parse(cfg, ordering, now, later, rest, next) == Parse(cfg, ordering, now, later, rest, Characters(cfg, rest[0]))
  {
  }

  ghost predicate GoOn(answers: seq<Answer>) {
    forall i :: 0 <= i < |answers| ==> answers[i].ret != END
  }

  /** No long option has the value that means the end. */
  ghost predicate EndFree(cfg: Config) {
    cfg.longopts.Some? ==> forall o :: o in cfg.longopts.value ==> o.val != END
  }

  /** What a caller hears that stops at the first -1. */
  function Heard(answers: seq<Answer>): seq<Answer> {
    if answers == [] || answers[0].ret == END then [] else [answers[0]] + Heard(answers[1..])
  }

  lemma {:induction false} HeardUpTo(answers: seq<Answer>, left: seq<Answer>)
    requires GoOn(answers) && (left != [] ==> left[0].ret == END)
    ensures Heard(answers + left) == answers && (GoOn(answers + left) <==> left == [])
    ensures left != [] ==> (answers + left)[|answers| + 1..] == left[1..]
  {
    if answers == [] {
      assert answers + left == left;
    } else {
      HeardUpTo(answers[1..], left);
      assert (answers + left)[1..] == answers[1..] + left;
      if left != [] { assert (answers + left)[|answers|] == left[0]; }
      else { assert answers + left == answers; }
    }
  }

  lemma GoesOnMore(answers: seq<Answer>, left: seq<Answer>)
    ensures GoOn([]) && answers + [] == answers && [] + left == left
    ensures left != [] && GoOn(answers) && left[0].ret != END ==> GoOn(answers + [left[0]])
    ensures left != [] ==> answers + left == answers + [left[0]] + left[1..]
  {
  }

  lemma DecodeGoesOn(cfg: Config, optstring: string, elem: string, next: string, behind: seq<string>)
    requires next != "" && EndFree(cfg)
    ensures Decode(cfg, optstring, elem, next, behind).answer.ret != END
  {
    hide LongMatch;
    ShortGoesOn(cfg, optstring, next, behind);
    hide DecodeShort;
  }

  lemma ShortGoesOn(cfg: Config, optstring: string, next: string, behind: seq<string>)
    requires next != "" && EndFree(cfg)
    ensures DecodeShort(cfg, optstring, next, behind).answer.ret != END
  {
    hide LongMatch;
  }

  lemma AnswerGoesOn()
    ensures GoOn([]) && forall a: Answer, s {:trigger GoOn([a] + s)} :: a.ret != END && GoOn(s) ==> GoOn([a] + s)
  {
  }

  /** -1 is never an answer, unless a long option has it as its value. */
  lemma {:induction false} AnswersGoOn(cfg: Config, ordering: Ordering, now: string, later: string,
                                       rest: seq<string>, next: string)
    requires EndFree(cfg)
    ensures GoOn(Parse(cfg, ordering, now, later, rest, next).answers)
    decreases |rest|, if rest == [] then 0 else if next == "" then |rest[0]| + 1 else |next|
  {
    hide Parse, Decode, Nonoption, Characters, EndFree, GoOn;
    ParseStep(cfg, ordering, now, later, rest, next);
    AnswerGoesOn();
    if rest == [] {
    } else if next != "" {
      DecodeGoesOn(cfg, now, rest[0], next, rest[1..]);
      var d := Decode(cfg, now, rest[0], next, rest[1..]);
      if d.width <= |rest| {
        AnswersGoOn(cfg, ordering, later, later, rest[d.width..], d.next);
      } else {
        assert [d.answer] == [d.answer] + [];
      }
    } else if Nonoption(rest[0]) {
      if ordering == Permute {
        AnswersGoOn(cfg, ordering, now, later, rest[1..], "");
      } else if ordering == ReturnInOrder {
        AnswersGoOn(cfg, ordering, later, later, rest[1..], "");
      }
    } else if rest[0] != "--" {
      AnswersGoOn(cfg, ordering, now, later, rest, Characters(cfg, rest[0]));
    }
  }

  /** The elements with the given label, in their order. */
  function Pick<T>(s: seq<T>, labels: seq<bool>, b: bool): seq<T>
    requires |labels| == |s|
  {
    if s == [] then [] else (if labels[0] == b then [s[0]] else []) + Pick(s[1..], labels[1..], b)
  }

  /** The two picks are a stable partition: together they are a permutation. */
  lemma {:induction false} PickPermutes<T>(s: seq<T>, labels: seq<bool>)
    requires |labels| == |s|
    ensures multiset(Pick(s, labels, true) + Pick(s, labels, false)) == multiset(s)
  {
    hide Pick;
    PickHead(s, labels, true);
    PickHead(s, labels, false);
    if s != [] {
      PickPermutes(s[1..], labels[1..]);
      OneMore(s[0], Pick(s[1..], labels[1..], true), Pick(s[1..], labels[1..], false), s[1..]);
    }
  }

  lemma PickHead<T>(s: seq<T>, labels: seq<bool>, b: bool)
    requires |labels| == |s|
    ensures s == [] ==> Pick(s, labels, b) == []
    ensures s != [] && labels[0] == b ==> Pick(s, labels, b) == [s[0]] + Pick(s[1..], labels[1..], b)
    ensures s != [] && labels[0] != b ==> Pick(s, labels, b) == Pick(s[1..], labels[1..], b)
    ensures s != [] ==> s == [s[0]] + s[1..]
  {
  }

  lemma OneMore<T>(x: T, yes: seq<T>, no: seq<T>, all: seq<T>)
    requires multiset(yes + no) == multiset(all)
    ensures multiset(([x] + yes) + no) == multiset([x] + all) && multiset(yes + ([x] + no)) == multiset([x] + all)
  {
    assert ([x] + yes) + no == [x] + (yes + no);
  }

  lemma {:induction false} PickLengths<T>(s: seq<T>, labels: seq<bool>)
    requires |labels| == |s|
    ensures |Pick(s, labels, true)| + |Pick(s, labels, false)| == |s|
  {
    if s != [] { PickLengths(s[1..], labels[1..]); }
  }

  lemma {:induction false} PickAll<T>(s: seq<T>, labels: seq<bool>, b: bool)
    requires |labels| == |s| && forall i :: 0 <= i < |s| ==> labels[i] == b
    ensures Pick(s, labels, b) == s && Pick(s, labels, !b) == []
  {
    if s != [] {
      PickAll(s[1..], labels[1..], b);
    }
  }

  lemma {:induction false} PickSplit<T>(s: seq<T>, labels: seq<bool>, n: nat, b: bool)
    requires |labels| == |s| && n <= |s|
    ensures Pick(s, labels, b) == Pick(s[..n], labels[..n], b) + Pick(s[n..], labels[n..], b)
  {
    if n > 0 {
      PickSplit(s[1..], labels[1..], n - 1, b);
      assert s[..n][1..] == s[1..][..n - 1] && labels[..n][1..] == labels[1..][..n - 1];
      assert s[n..] == s[1..][n - 1..] && labels[n..] == labels[1..][n - 1..];
    }
  }

  /** A run of w equal labels picks the first w elements. */
  lemma PickRun<T>(s: seq<T>, w: nat, labels: seq<bool>, b: bool)
    requires w <= |s| && |labels| == |s| - w
    ensures Pick(s, Repeat(b, w) + labels, b) == s[..w] + Pick(s[w..], labels, b)
    ensures Pick(s, Repeat(b, w) + labels, !b) == Pick(s[w..], labels, !b)
  {
    var all := Repeat(b, w) + labels;
    assert all[..w] == Repeat(b, w) && all[w..] == labels;
    PickSplit(s, all, w, b);
    PickSplit(s, all, w, !b);
    PickAll(s[..w], Repeat(b, w), b);
  }

  /** Where a scan will end that has found the options front, has skipped some
  arguments and has the rest to go: all options with their arguments, all other
  arguments, and the answers still to be given, of which the last may overrun. */
  datatype Outcome = Outcome(options: seq<string>, others: seq<string>, answers: seq<Answer>, overrun: bool)

  ghost function OutcomeOf(cfg: Config, ordering: Ordering, now: string, later: string,
                           front: seq<string>, skipped: seq<string>, rest: seq<string>, next: string): Outcome {
    var p := Parse(cfg, ordering, now, later, rest, next);
    Outcome(front + Pick(rest, p.labels, true), skipped + Pick(rest, p.labels, false), p.answers, p.overrun)
  }

  ghost function Prepend(a: Answer, o: Outcome): Outcome {
    o.(answers := [a] + o.answers)
  }

  /** The answer now due is the one that overruns. */
  ghost predicate Overrunning(o: Outcome) {
    o.overrun && |o.answers| == 1
  }

  lemma OutcomeSkipOne(cfg: Config, now: string, later: string, front: seq<string>, skipped: seq<string>,
                       rest: seq<string>)
    requires rest != [] && Nonoption(rest[0])
    ensures OutcomeOf(cfg, Permute, now, later, front, skipped, rest, "")
         == OutcomeOf(cfg, Permute, now, later, front, skipped + [rest[0]], rest[1..], "")
  {
    hide Parse, Nonoption, Pick;
    ParseStep(cfg, Permute, now, later, rest, "");
    var p := Parse(cfg, Permute, now, later, rest[1..], "");
    assert ([false] + p.labels)[1..] == p.labels;
    PickHead(rest, [false] + p.labels, true);
    PickHead(rest, [false] + p.labels, false);
    assert skipped + ([rest[0]] + Pick(rest[1..], p.labels, false))
        == skipped + [rest[0]] + Pick(rest[1..], p.labels, false);
  }

  lemma {:induction false} OutcomeSkip(cfg: Config, now: string, later: string, front: seq<string>,
                                       skipped: seq<string>, rest: seq<string>, n: nat)
    requires n <= |rest| && forall i :: 0 <= i < n ==> Nonoption(rest[i])
    ensures OutcomeOf(cfg, Permute, now, later, front, skipped, rest, "")
         == OutcomeOf(cfg, Permute, now, later, front, skipped + rest[..n], rest[n..], "")
    decreases n
  {
    hide OutcomeOf;
    if n == 0 {
      assert skipped + rest[..0] == skipped && rest[0..] == rest;
    } else {
      OutcomeSkipOne(cfg, now, later, front, skipped, rest);
      OutcomeSkip(cfg, now, later, front, skipped + [rest[0]], rest[1..], n - 1);
      assert skipped + [rest[0]] + rest[1..][..n - 1] == skipped + rest[..n] && rest[1..][n - 1..] == rest[n..];
    }
  }

  lemma OutcomeStart(cfg: Config, ordering: Ordering, now: string, later: string, front: seq<string>,
                     skipped: seq<string>, rest: seq<string>)
    requires rest != [] && !Nonoption(rest[0]) && rest[0] != "--"
    ensures OutcomeOf(cfg, ordering, now, later, front, skipped, rest, "")
         == OutcomeOf(cfg, ordering, now, later, front, skipped, rest, Characters(cfg, rest[0]))
  {
  }

  lemma OutcomeStop(cfg: Config, ordering: Ordering, now: string, later: string, front: seq<string>,
                    skipped: seq<string>, rest: seq<string>)
    ensures rest == [] ==>
      OutcomeOf(cfg, ordering, now, later, front, skipped, rest, "") == Outcome(front, skipped, [], false)
    ensures rest != [] && rest[0] == "--" ==>
      OutcomeOf(cfg, ordering, now, later, front, skipped, rest, "") == Outcome(front + rest[..1], skipped + rest[1..],
                [], false)
    ensures rest != [] && Nonoption(rest[0]) && ordering == RequireOrder ==>
      OutcomeOf(cfg, ordering, now, later, front, skipped, rest, "") == Outcome(front, skipped + rest, [], false)
  {
    if rest == [] {
      assert front + [] == front && skipped + [] == skipped;
    } else if rest[0] == "--" {
      PickRun(rest, 1, Repeat(false, |rest| - 1), true);
      PickAll(rest[1..], Repeat(false, |rest| - 1), false);
      assert Repeat(true, 1) == [true];
      assert rest[..1] + [] == rest[..1];
    } else if Nonoption(rest[0]) && ordering == RequireOrder {
      PickAll(rest, Repeat(false, |rest|), false);
      assert front + [] == front;
    }
  }

  lemma OutcomeInOrder(cfg: Config, now: string, later: string, front: seq<string>, skipped: seq<string>,
                       rest: seq<string>)
    requires rest != [] && Nonoption(rest[0])
    ensures OutcomeOf(cfg, ReturnInOrder, now, later, front, skipped, rest, "")
         == Prepend(Reply(1, Some(rest[0]), None),
                    OutcomeOf(cfg, ReturnInOrder, later, later, front + rest[..1], skipped, rest[1..], ""))
  {
    var p := Parse(cfg, ReturnInOrder, later, later, rest[1..], "");
    PickRun(rest, 1, p.labels, true);
    assert Repeat(true, 1) == [true];
    assert front + (rest[..1] + Pick(rest[1..], p.labels, true)) == front + rest[..1] + Pick(rest[1..], p.labels, true);
  }

  /** One decoded option. */
  lemma OutcomeOption(cfg: Config, ordering: Ordering, now: string, later: string, front: seq<string>,
                      skipped: seq<string>, rest: seq<string>, next: string)
    requires rest != [] && next != ""
    ensures var d := Decode(cfg, now, rest[0], next, rest[1..]);
            OutcomeOf(cfg, ordering, now, later, front, skipped, rest, next) ==
              if d.width > |rest| then Outcome(front + rest, skipped, [d.answer], true)
              else
                Prepend(d.answer,
                        OutcomeOf(cfg, ordering, later, later, front + rest[..d.width], skipped, rest[d.width..],
                                  d.next))
  {
    var d := Decode(cfg, now, rest[0], next, rest[1..]);
    if d.width > |rest| {
      PickAll(rest, Repeat(true, |rest|), true);
      assert skipped + [] == skipped;
      return;
    }
    var p := Parse(cfg, ordering, later, later, rest[d.width..], d.next);
    PickRun(rest, d.width, p.labels, true);
    var picked := Pick(rest[d.width..], p.labels, true);
    assert front + (rest[..d.width] + picked) == front + rest[..d.width] + picked;
  }

  // ------------------------------------------------------------ the scanner

  function OrderingOf(optstring: string, posixlyCorrect: bool): Ordering {
    if At(optstring, 0) == '-' then ReturnInOrder
    else if At(optstring, 0) == '+' || posixlyCorrect then RequireOrder
    else Permute
  }

  /** The option string that the first call works with. */
  function Body(optstring: string): string {
    if At(optstring, 0) == '-' || At(optstring, 0) == '+' then optstring[1..] else optstring
  }

  /** How many arguments that are no options stand in front. */
  function Leading(rest: seq<string>): (n: nat)
    ensures n <= |rest| && forall i :: 0 <= i < n ==> Nonoption(rest[i])
    ensures n < |rest| ==> !Nonoption(rest[n])
  {
    if rest == [] || !Nonoption(rest[0]) then 0 else 1 + Leading(rest[1..])
  }

  /** How many arguments a call skips before it comes to its answer. */
  function PassedBy(ordering: Ordering, next: string, rest: seq<string>): (n: nat)
    ensures n <= |rest|
  {
    if ordering == Permute && next == "" then Leading(rest) else 0
  }

  lemma LeadingIs(rest: seq<string>, n: nat)
    requires n <= |rest| && (forall i :: 0 <= i < n ==> Nonoption(rest[i])) && (n < |rest| ==> !Nonoption(rest[n]))
    ensures Leading(rest) == n
  {
    if n > 0 { LeadingIs(rest[1..], n - 1); }
  }

  datatype Position = Position(start: nat, front: seq<string>, skipped: seq<string>, passed: nat)

  class GetoptData {
    var optind: nat
    var optopt: int
    var optarg: Option<string>
    var initialized: bool
    var nextchar: Option<string>
    var ordering: Ordering
    var posixlyCorrect: bool
    var firstNonopt: nat
    var lastNonopt: nat

    constructor ()
      ensures optind == 1 && !initialized
    {
      optind, optopt, optarg, initialized := 1, '?' as int, None, false;
      nextchar, ordering, posixlyCorrect, firstNonopt, lastNonopt := None, Permute, false, 0, 0;
    }

    /** The characters left in the current argument. */
    function Next(): string
      reads `nextchar
    {
      if nextchar == None then "" else nextchar.value
    }

    ghost predicate InOrder(argc: nat)
      reads `firstNonopt, `lastNonopt, `optind
    {
      firstNonopt <= lastNonopt <= optind <= argc
    }

    ghost predicate InRange(argc: nat)
      reads `firstNonopt, `lastNonopt, `optind, `ordering, `nextchar
    {
      && InOrder(argc)
      && (ordering != Permute ==> firstNonopt == lastNonopt)
      && (Next() != "" ==> optind < argc)
    }

    /** The options so far, the arguments skipped so far, and the rest. */
    ghost function Front(argv: seq<string>): seq<string>
      requires InOrder(|argv|)
      reads `firstNonopt, `lastNonopt, `optind
    {
      argv[..firstNonopt] + argv[lastNonopt..optind]
    }

    ghost function Skipped(argv: seq<string>): seq<string>
      requires InOrder(|argv|)
      reads `firstNonopt, `lastNonopt, `optind
    {
      argv[firstNonopt..lastNonopt]
    }

    ghost function Rest(argv: seq<string>): seq<string>
      requires InOrder(|argv|)
      reads `firstNonopt, `lastNonopt, `optind
    {
      argv[optind..]
    }

    /** What has become of argv, which was was before, while the scan went on from
    start: it is permuted, but not from optind on; the skipped arguments are those
    of before and the next passed ones, all others stand in front of them. */
    ghost predicate Kept(argv: seq<string>, was: seq<string>, start: nat, front: seq<string>, skipped: seq<string>,
                         passed: nat)
      requires InOrder(|argv|)
      reads `firstNonopt, `lastNonopt, `optind
    {
      && |argv| == |was| && start + passed <= optind
      && SameElements(argv, was) && argv[optind..] == was[optind..]
      && Skipped(argv) == skipped + was[start..start + passed]
      && Front(argv) == front + was[start + passed..optind]
    }

    /** The three parts make up the whole. */
    lemma PartsPermute(argv: seq<string>)
      requires InOrder(|argv|)
      ensures SameElements(argv, Front(argv) + Skipped(argv) + argv[optind..])
    {
      assert argv == argv[..firstNonopt] + argv[firstNonopt..lastNonopt] + argv[lastNonopt..optind] + argv[optind..];
    }

    /** Before a call: nothing has happened yet. */
    lemma KeptAtFirst(argv: seq<string>)
      requires InOrder(|argv|) && Next() != ""
      ensures Kept(argv, argv, optind, Front(argv), Skipped(argv), PassedBy(ordering, Next(), Rest(argv)))
    {
      assert argv[optind..optind] == [];
    }

    lemma KeptMeans(argv: seq<string>, was: seq<string>, start: nat, front: seq<string>, skipped: seq<string>,
                    passed: nat)
      requires InOrder(|argv|) && Kept(argv, was, start, front, skipped, passed)
      ensures |argv| == |was| && start + passed <= optind
      ensures SameElements(argv, was) && argv[optind..] == was[optind..]
      ensures Skipped(argv) == skipped + was[start..start + passed]
      ensures Front(argv) == front + was[start + passed..optind]
    {
    }

    /** The scan has used up the arguments from middle on, and moved nothing. */
    lemma KeptMore(argv: seq<string>, was: seq<string>, start: nat, front: seq<string>, skipped: seq<string>,
                   passed: nat, middle: nat, front': seq<string>)
      requires InOrder(|argv|) && |argv| == |was| && start + passed <= middle <= optind
      requires SameElements(argv, was) && argv[middle..] == was[middle..]
      requires Skipped(argv) == skipped + was[start..start + passed]
      requires front' == front + was[start + passed..middle] && Front(argv) == front' + argv[middle..optind]
      ensures Kept(argv, was, start, front, skipped, passed)
    {
      hide SameElements;
      assert argv[optind..] == argv[middle..][optind - middle..] == was[optind..];
      assert argv[middle..optind] == argv[middle..][..optind - middle] == was[middle..optind];
      assert was[start + passed..optind] == was[start + passed..middle] + was[middle..optind];
    }

    lemma RestParts(argv: seq<string>)
      requires InOrder(|argv|)
      ensures Rest(argv) == argv[optind..] && SameElements(argv, Front(argv) + Skipped(argv) + Rest(argv))
    {
      PartsPermute(argv);
    }

    lemma KeptSkip(argv: seq<string>, was: seq<string>, start: nat, front: seq<string>, skipped: seq<string>,
                   rest: seq<string>)
      requires InOrder(|argv|) && |argv| == |was| && start <= optind
      requires rest == was[start..] && SameElements(was, front + skipped + rest)
      requires Front(argv) == front && Skipped(argv) == skipped + rest[..optind - start]
      requires Rest(argv) == rest[optind - start..]
      ensures Kept(argv, was, start, front, skipped, optind - start)
    {
      RestParts(argv);
      SuffixView(was, start, optind);
      assert front + was[optind..optind] == front;
      KeptParts(argv, was, start, front, skipped, optind - start);
    }

    lemma KeptParts(argv: seq<string>, was: seq<string>, start: nat, front: seq<string>, skipped: seq<string>,
                    passed: nat)
      requires InOrder(|argv|) && |argv| == |was| && start + passed <= optind && argv[optind..] == was[optind..]
      requires SameElements(was, front + skipped + was[start..])
      requires Skipped(argv) == skipped + was[start..start + passed]
      requires Front(argv) == front + was[start + passed..optind]
      ensures Kept(argv, was, start, front, skipped, passed)
    {
      hide Front, Skipped, SameElements;
      assert SameElements(argv, was) by {
        hide Kept;
        PartsPermute(argv);
        PartsMixed(argv, was, start, start + passed, optind, Front(argv), Skipped(argv), front, skipped);
      }
    }

    method Exchange(argv: array<string>)
      requires InRange(argv.Length)
      modifies argv, `firstNonopt, `lastNonopt
      ensures argv[..] == Exchanged(old(argv[..]), old(firstNonopt), old(lastNonopt), optind)
      ensures firstNonopt == old(firstNonopt) + (optind - old(lastNonopt)) && lastNonopt == optind
      ensures InRange(argv.Length)
      ensures Front(argv[..]) == old(Front(argv[..])) && Skipped(argv[..]) == old(Skipped(argv[..]))
      ensures Rest(argv[..]) == old(Rest(argv[..]))
    {
      Rotate(argv, firstNonopt, lastNonopt, optind);
      firstNonopt := firstNonopt + (optind - lastNonopt);
      lastNonopt := optind;
    }

    method Initialize(optstring: string, posixlyCorrect: bool) returns (body: string)
      modifies `firstNonopt, `lastNonopt, `nextchar, `posixlyCorrect, `ordering
      ensures firstNonopt == lastNonopt == optind && nextchar == None && this.posixlyCorrect == posixlyCorrect
      ensures ordering == OrderingOf(optstring, posixlyCorrect) && body == Body(optstring)
    {
      firstNonopt, lastNonopt := optind, optind;
      nextchar := None;
      this.posixlyCorrect := posixlyCorrect;
      body := optstring;
      if At(optstring, 0) == '-' {
        ordering := ReturnInOrder;
        body := optstring[1..];
      } else if At(optstring, 0) == '+' {
        ordering := RequireOrder;
        body := optstring[1..];
      } else if this.posixlyCorrect {
        ordering := RequireOrder;
      } else {
        ordering := Permute;
      }
    }

    /** Under PERMUTE, bring the options in front of the arguments that were
    skipped before them. */
    method Settle(argv: array<string>)
      requires InRange(argv.Length)
      modifies argv, `firstNonopt, `lastNonopt
      ensures firstNonopt <= optind && argv[..firstNonopt] == old(Front(argv[..]))
      ensures argv[firstNonopt..optind] == old(Skipped(argv[..])) && argv[optind..] == old(Rest(argv[..]))
    {
      if firstNonopt != lastNonopt && lastNonopt != optind {
        Exchange(argv);
        assert argv[optind..optind] == [];
      } else if lastNonopt != optind {
        assert argv[..firstNonopt] + argv[firstNonopt..optind] == argv[..optind];
        firstNonopt := optind;
      }
    }

    /** The loop over the next arguments that are no options. */
    method PassNonoptions(argv: array<string>)
      requires optind <= argv.Length
      modifies `optind
      ensures old(optind) <= optind <= argv.Length && (optind < argv.Length ==> !Nonoption(argv[optind]))
      ensures forall i :: old(optind) <= i < optind ==> Nonoption(argv[i])
    {
      ghost var start := optind;
      while optind < argv.Length && Nonoption(argv[optind])
        invariant start <= optind <= argv.Length
        invariant forall i :: start <= i < optind ==> Nonoption(argv[i])
      {
        optind := optind + 1;
      }
    }

    /** Between two arguments, under PERMUTE: settle, then skip what is no option. */
    method SkipNonoptions(argv: array<string>)
      requires InRange(argv.Length) && ordering == Permute && Next() == ""
      modifies argv, `optind, `firstNonopt, `lastNonopt
      ensures InRange(argv.Length) && lastNonopt == optind && old(optind) <= optind
      ensures Front(argv[..]) == old(Front(argv[..])) && Rest(argv[..]) == old(Rest(argv[..]))[optind - old(optind)..]
      ensures Skipped(argv[..]) == old(Skipped(argv[..])) + old(Rest(argv[..]))[..optind - old(optind)]
      ensures forall i :: 0 <= i < optind - old(optind) ==> Nonoption(old(Rest(argv[..]))[i])
      ensures optind < argv.Length ==> !Nonoption(argv[optind])
    {
      hide Nonoption, Front, Skipped, Rest;
      ghost var front, skipped, rest, start := Front(argv[..]), Skipped(argv[..]), Rest(argv[..]), optind;
      Settle(argv);
      PassNonoptions(argv);
      lastNonopt := optind;
      SkipView(argv[..], firstNonopt, start, optind, front, skipped, rest);
      Views(argv[..]);
    }

    lemma Views(argv: seq<string>)
      requires InOrder(|argv|)
      ensures Front(argv) == argv[..firstNonopt] + argv[lastNonopt..optind]
      ensures Skipped(argv) == argv[firstNonopt..lastNonopt] && Rest(argv) == argv[optind..]
    {
    }

    /** The argument "--": what follows is skipped as if it were no option. */
    method SkipAll(argv: array<string>)
      requires InRange(argv.Length) && Next() == "" && optind < argv.Length && (ordering == Permute ==>
        lastNonopt == optind)
      modifies argv, `optind, `firstNonopt, `lastNonopt
      ensures firstNonopt <= lastNonopt == optind == argv.Length
      ensures argv[..firstNonopt] == old(Front(argv[..]) + Rest(argv[..])[..1])
      ensures argv[firstNonopt..] == old(Skipped(argv[..]) + Rest(argv[..])[1..])
    {
      ghost var f, l, o, was := firstNonopt, lastNonopt, optind, argv[..];
      optind := optind + 1;
      if firstNonopt != lastNonopt && lastNonopt != optind {
        Exchange(argv);
      } else if firstNonopt == lastNonopt {
        firstNonopt := optind;
      }
      SkipAllView(was, f, l, o, argv[..], firstNonopt);
      lastNonopt := argv.Length;
      optind := argv.Length;
    }

    /** The option -W foo, of which the first argument stands at start. */
    method LongShort(argv: array<string>, optstring: string, cfg: Config, ghost start: nat) returns (answer: Answer)
      requires start < argv.Length && optind == start + (if Next() == "" then 1 else 0)
      requires nextchar != None && optarg == None && cfg.longopts != None
      modifies `optind, `nextchar, `optarg, `optopt
      ensures Took(DecodeW(cfg, optstring, old(Next()), argv[start + 1..]), start, old(optopt), answer)
    {
      hide LongMatch;
      if nextchar.value != "" {
        optarg := nextchar;
        optind := optind + 1;
      } else if optind == argv.Length {
        optopt := 'W' as int;
        return Reply(Missing(optstring), None, Some('W' as int));
      } else {
        optarg := Some(argv[optind]);
        optind := optind + 1;
      }
      nextchar := optarg;
      var n := FindNameEnd(nextchar.value);
      var m := FindLong(cfg.longopts.value, nextchar.value[..n], true);
      if m == Ambiguous {
        nextchar := Some("");
        optind := optind + 1;
        return Reply('?' as int, optarg, None);
      }
      if m == NoMatch {
        nextchar := None;
        return Reply('W' as int, optarg, None);
      }
      answer := NamedOption(argv, optstring, cfg.longopts.value[m.index], m.index, n, start);
    }

    /** The same, when the long option was found: nextchar holds the text, of which
    the first n characters are the name. */
    method NamedOption(argv: array<string>, optstring: string, pfound: LongOption, index: nat, n: nat,
                       ghost start: nat) returns (answer: Answer)
      requires nextchar != None && optarg == nextchar && n <= |nextchar.value| && start < optind <= argv.Length
      modifies `optind, `nextchar, `optarg, `optopt
      ensures Took(DecodeNamed(optstring, pfound, index, old(Next()), n, old(optind) - start, argv[start + 1..]),
                   start, old(optopt), answer)
    {
      var text := nextchar.value;
      nextchar := Some("");
      if n < |text| {
        if pfound.hasArg != 0 {
          optarg := Some(text[n + 1..]);
        } else {
          return Reply('?' as int, optarg, None);
        }
      } else if pfound.hasArg == 1 {
        if optind < argv.Length {
          optarg := Some(argv[optind]);
          optind := optind + 1;
        } else {
          return Reply(Missing(optstring), optarg, None);
        }
      }
      if pfound.flag != None {
        return Answer(0, optarg, None, Some(index), Some((pfound.flag.value, pfound.val)));
      }
      return Answer(pfound.val, optarg, None, Some(index), None);
    }

    /** Short option: the next character of the current argument. */
    method ShortOption(argv: array<string>, optstring: string, cfg: Config) returns (answer: Answer)
      requires optind < argv.Length && Next() != "" && optarg == None && HasTable(cfg, optstring)
      modifies `optind, `nextchar, `optarg, `optopt
      ensures Took(DecodeShort(cfg, optstring, old(Next()), argv[old(optind) + 1..]), old(optind), old(optopt), answer)
    {
      hide DecodeW;
      var c := nextchar.value[0];
      nextchar := Some(nextchar.value[1..]);
      var temp := StrChr(optstring, c);
      StrChrFinds(optstring, c);
      ghost var start := optind;
      if nextchar.value == "" {
        optind := optind + 1;
      }
      if temp == "" || c == ':' {
        optopt := c as int;
        return Reply('?' as int, None, Some(c as int));
      }
      if temp[0] == 'W' && At(temp, 1) == ';' {
        answer := LongShort(argv, optstring, cfg, start);
        return;
      }
      var ret := c as int;
      var missing := None;
      if At(temp, 1) == ':' {
        if At(temp, 2) == ':' {
          if nextchar.value != "" {
            optarg := nextchar;
            optind := optind + 1;
          } else {
            optarg := None;
          }
          nextchar := None;
        } else {
          if nextchar.value != "" {
            optarg := nextchar;
            optind := optind + 1;
          } else if optind == argv.Length {
            optopt := c as int;
            missing := Some(c as int);
            if At(optstring, 0) == ':' {
              ret := ':' as int;
            } else {
              ret := '?' as int;
            }
          } else {
            optarg := Some(argv[optind]);
            optind := optind + 1;
          }
          nextchar := None;
        }
      }
      answer := Reply(ret, optarg, missing);
    }

    /** A long option that was found in the table; text is what stands behind an
    equals sign. */
    method FoundOption(argv: array<string>, optstring: string, pfound: LongOption, index: nat,
                       text: Option<string>) returns (answer: Answer)
      requires optind < argv.Length && optarg == None
      modifies `optind, `nextchar, `optarg, `optopt
      ensures Took(DecodeFound(optstring, pfound, index, text, argv[old(optind) + 1..]), old(optind), old(optopt),
                   answer)
    {
      optind := optind + 1;
      nextchar := Some("");
      if text != None {
        if pfound.hasArg != 0 {
          optarg := text;
        } else {
          optopt := pfound.val;
          return Reply('?' as int, None, Some(pfound.val));
        }
      } else if pfound.hasArg == 1 {
        if optind < argv.Length {
          optarg := Some(argv[optind]);
          optind := optind + 1;
        } else {
          optopt := pfound.val;
          return Reply(Missing(optstring), None, Some(pfound.val));
        }
      }
      if pfound.flag != None {
        return Answer(0, optarg, None, Some(index), Some((pfound.flag.value, pfound.val)));
      }
      return Answer(pfound.val, optarg, None, Some(index), None);
    }

    /** A long option, written out or abbreviated; None if the argument has to be
    taken as short options after all. */
    method LongOption(argv: array<string>, optstring: string, cfg: Config) returns (answer: Option<Answer>)
      requires optind < argv.Length && Next() != "" && optarg == None && TriesLong(cfg, optstring, argv[optind])
      modifies `optind, `nextchar, `optarg, `optopt
      ensures answer == None ==>
        && optind == old(optind) && Next() == old(Next()) && optarg == None && optopt == old(optopt)
        && Decode(cfg, optstring, argv[optind], Next(), argv[optind + 1..])
           == DecodeShort(cfg, optstring, Next(), argv[optind + 1..])
      ensures answer != None ==>
        Took(Decode(cfg, optstring, argv[old(optind)], old(Next()), argv[old(optind) + 1..]), old(optind), old(optopt),
             answer.value)
    {
      hide LongMatch, DecodeShort, DecodeFound;
      var text := nextchar.value;
      var n := FindNameEnd(text);
      var m := FindLong(cfg.longopts.value, text[..n], cfg.longOnly);
      if m.Found? {
        var behind := if n < |text| then Some(text[n + 1..]) else None;
        var found := FoundOption(argv, optstring, cfg.longopts.value[m.index], m.index, behind);
        return Some(found);
      }
      if m == Ambiguous || !cfg.longOnly || At(argv[optind], 1) == '-' || StrChr(optstring, text[0]) == "" {
        nextchar := Some("");
        optind := optind + 1;
        optopt := 0;
        return Some(Reply('?' as int, None, Some(0)));
      }
      return None;
    }

    /** The decoding half of the scanner. */
    method DecodeOption(argv: array<string>, optstring: string, cfg: Config) returns (answer: Answer)
      requires optind < argv.Length && Next() != "" && optarg == None && HasTable(cfg, optstring)
      modifies `optind, `nextchar, `optarg, `optopt
      ensures Took(Decode(cfg, optstring, argv[old(optind)], old(Next()), argv[old(optind) + 1..]),
                   old(optind), old(optopt), answer)
    {
      hide LongMatch, DecodeShort, DecodeFound, HasTable;
      if TriesLong(cfg, optstring, argv[optind]) {
        var found := LongOption(argv, optstring, cfg);
        if found != None {
          return found.value;
        }
      }
      answer := ShortOption(argv, optstring, cfg);
    }

    ghost function Outlook(cfg: Config, now: string, later: string, argv: seq<string>): Outcome
      requires InRange(|argv|)
      reads `firstNonopt, `lastNonopt, `optind, `ordering, `nextchar
    {
      OutcomeOf(cfg, ordering, now, later, Front(argv), Skipped(argv), Rest(argv), Next())
    }

    /** Skip what is no option, if arguments are permuted at all. */
    method SkipPassed(argv: array<string>)
      requires InRange(argv.Length) && Next() == ""
      modifies argv, `optind, `firstNonopt, `lastNonopt
      ensures InRange(argv.Length) && old(optind) <= optind
      ensures optind - old(optind) == PassedBy(ordering, "", old(Rest(argv[..])))
      ensures Front(argv[..]) == old(Front(argv[..])) && Rest(argv[..]) == old(Rest(argv[..]))[optind - old(optind)..]
      ensures Skipped(argv[..]) == old(Skipped(argv[..])) + old(Rest(argv[..]))[..optind - old(optind)]
      ensures ordering == Permute ==> lastNonopt == optind && (optind < argv.Length ==> !Nonoption(argv[optind]))
    {
      hide Nonoption, Front, Skipped, Rest;
      ghost var rest, start := Rest(argv[..]), optind;
      Views(argv[..]);
      if ordering == Permute {
        SkipNonoptions(argv);
        Views(argv[..]);
        LeadingIs(rest, optind - start);
      } else {
        assert Skipped(argv[..]) + rest[..0] == Skipped(argv[..]);
      }
    }

    /** The same, and nothing that is not yet scanned moves. */
    method SkipAhead(argv: array<string>)
      requires InRange(argv.Length) && Next() == ""
      modifies argv, `optind, `firstNonopt, `lastNonopt
      ensures InRange(argv.Length) && old(optind) <= optind
      ensures optind - old(optind) == PassedBy(ordering, "", old(Rest(argv[..])))
      ensures Front(argv[..]) == old(Front(argv[..])) && Rest(argv[..]) == old(Rest(argv[..]))[optind - old(optind)..]
      ensures Skipped(argv[..]) == old(Skipped(argv[..])) + old(Rest(argv[..]))[..optind - old(optind)]
      ensures ordering == Permute ==> lastNonopt == optind && (optind < argv.Length ==> !Nonoption(argv[optind]))
      ensures Kept(argv[..], old(argv[..]), old(optind), old(Front(argv[..])), old(Skipped(argv[..])),
                   optind - old(optind))
    {
      hide Nonoption, Front, Skipped, Rest, Kept, PassedBy, SameElements;
      ghost var was, front, skipped := argv[..], Front(argv[..]), Skipped(argv[..]);
      ghost var rest, start := Rest(argv[..]), optind;
      RestParts(was);
      SkipPassed(argv);
      ghost var now := argv[..];
      KeptSkip(now, was, start, front, skipped, rest);
    }

    /** Skipping does not change where the scan will end, and moves nothing that is
    not yet scanned. */
    method SkipStep(argv: array<string>, cfg: Config, ghost now: string, ghost later: string)
      requires InRange(argv.Length) && Next() == ""
      modifies argv, `optind, `firstNonopt, `lastNonopt
      ensures InRange(argv.Length) && Outlook(cfg, now, later, argv[..]) == old(Outlook(cfg, now, later, argv[..]))
      ensures ordering == Permute ==> lastNonopt == optind && (optind < argv.Length ==> !Nonoption(argv[optind]))
      ensures old(optind) <= optind && optind - old(optind) == PassedBy(ordering, "", old(Rest(argv[..])))
      ensures Kept(argv[..], old(argv[..]), old(optind), old(Front(argv[..])), old(Skipped(argv[..])),
                   optind - old(optind))
    {
      hide OutcomeOf, Nonoption, Front, Skipped, Rest, Kept, PassedBy;
      SkipOutlook(cfg, ordering, now, later, Front(argv[..]), Skipped(argv[..]), Rest(argv[..]));
      SkipAhead(argv);
    }

    /** The scan stops: at "--", at the end, or at the first argument that is no
    option if order is required. */
    method Stop(argv: array<string>, ghost cfg: Config, ghost now: string, ghost later: string)
      requires InRange(argv.Length) && Next() == "" && (ordering == Permute ==> lastNonopt == optind)
      requires optind < argv.Length && argv[optind] != "--" ==> ordering == RequireOrder && Nonoption(argv[optind])
      modifies argv, `optind, `firstNonopt, `lastNonopt
      ensures Ended(argv[..], old(Outlook(cfg, now, later, argv[..])))
    {
      hide OutcomeOf, Nonoption, Front, Skipped, Rest;
      StopViews(argv[..], cfg, now, later);
      ghost var goal := Outlook(cfg, now, later, argv[..]);
      hide Outlook;
      if optind != argv.Length && argv[optind] == "--" {
        SkipAll(argv);
        assert argv[..] == argv[..firstNonopt] + argv[firstNonopt..];
      }
      if optind == argv.Length {
        if firstNonopt != lastNonopt {
          optind := firstNonopt;
        }
      }
    }

    lemma StopViews(argv: seq<string>, cfg: Config, now: string, later: string)
      requires InRange(|argv|) && Next() == "" && (ordering == Permute ==> lastNonopt == optind)
      requires optind < |argv| && argv[optind] != "--" ==> ordering == RequireOrder && Nonoption(argv[optind])
      ensures var (o, front, skipped, rest) := (Outlook(cfg, now, later, argv), Front(argv), Skipped(argv), Rest(argv));
              && argv == front + (skipped + rest) && |front| == firstNonopt + (optind - lastNonopt)
              && (optind < |argv| ==> rest != [] && rest[0] == argv[optind])
              && o == if optind < |argv| && argv[optind] == "--"
                      then Outcome(front + rest[..1], skipped + rest[1..], [], false)
                      else Outcome(front, skipped + rest, [], false)
    {
      hide OutcomeOf, Nonoption, Front, Skipped, Rest;
      OutcomeStop(cfg, ordering, now, later, Front(argv), Skipped(argv), Rest(argv));
      Views(argv);
      WholeView(argv, firstNonopt, lastNonopt, optind);
      NothingMore(Skipped(argv));
    }

    /** The scanner has returned the argument at o, which is no option, in its order. */
    lemma ArgumentTaken(argv: seq<string>, o: nat, cfg: Config, now: string, later: string, front: seq<string>,
                        skipped: seq<string>, rest: seq<string>)
      requires firstNonopt == lastNonopt <= o < |argv| && optind == o + 1 && ordering == ReturnInOrder
      requires front == argv[..firstNonopt] + argv[lastNonopt..o] && skipped == argv[firstNonopt..lastNonopt]
      requires rest == argv[o..] && Nonoption(argv[o]) && Next() == ""
      ensures InRange(|argv|) && Skipped(argv) == skipped && Front(argv) == front + argv[o..optind]
      ensures OutcomeOf(cfg, ordering, now, later, front, skipped, rest, "")
           == Prepend(Reply(1, Some(argv[o]), None), Outlook(cfg, later, later, argv))
    {
      hide OutcomeOf, Nonoption;
      OutcomeInOrder(cfg, now, later, front, skipped, rest);
      OptionView(argv, firstNonopt, lastNonopt, o, 1, front, rest);
    }

    /** Return an argument that is no option in its order. */
    method TakeArgument(argv: array<string>, cfg: Config, ghost now: string, ghost later: string,
                        ghost was: seq<string>,
                        ghost start: nat, ghost front: seq<string>, ghost skipped: seq<string>) returns (answer: Answer)
      requires InRange(argv.Length) && Next() == "" && optind < argv.Length && Nonoption(argv[optind])
      requires ordering == ReturnInOrder && start <= optind
      requires Kept(argv[..], was, start, front, skipped, optind - start)
      modifies `optind, `optarg
      ensures InRange(argv.Length) && optind == old(optind) + 1 && answer == Reply(1, Some(argv[old(optind)]), None)
      ensures optarg == answer.optarg && Kept(argv[..], was, start, front, skipped, old(optind) - start)
      ensures old(Outlook(cfg, now, later, argv[..])) == Prepend(answer, Outlook(cfg, later, later, argv[..]))
    {
      hide OutcomeOf, Nonoption, Front, Skipped, Rest, Kept;
      RangeViews(argv[..]);
      KeptMeans(argv[..], was, start, front, skipped, optind - start);
      ghost var o, front', skipped', rest := optind, Front(argv[..]), Skipped(argv[..]), Rest(argv[..]);
      optarg := Some(argv[optind]);
      optind := optind + 1;
      ArgumentTaken(argv[..], o, cfg, now, later, front', skipped', rest);
      KeptMore(argv[..], was, start, front, skipped, o - start, o, front');
      answer := Reply(1, optarg, None);
    }

    /** The scanning half: go to the next option argument.  An answer is given if
    there is none, or if arguments that are no options are returned in order. */
    method NextElement(argv: array<string>, cfg: Config, ghost now: string,
                       ghost later: string) returns (answer: Option<Answer>)
      requires InRange(argv.Length) && Next() == ""
      modifies argv, `optind, `firstNonopt, `lastNonopt, `nextchar, `optarg
      ensures answer == None ==>
        && InRange(argv.Length) && Next() != "" && optarg == old(optarg) && old(optind) <= optind
        && Outlook(cfg, now, later, argv[..]) == old(Outlook(cfg, now, later, argv[..]))
      ensures answer == None || answer.value.ret != END ==>
        && InRange(argv.Length)
        && Kept(argv[..], old(argv[..]), old(optind), old(Front(argv[..])), old(Skipped(argv[..])),
                PassedBy(ordering, "", old(Rest(argv[..]))))
      ensures answer != None && answer.value.ret == END ==>
        Ended(argv[..], old(Outlook(cfg, now, later, argv[..])))
      ensures answer != None && answer.value.ret != END ==>
        && InRange(argv.Length) && optarg == answer.value.optarg && old(optind) <= optind
        && old(Outlook(cfg, now, later, argv[..])) == Prepend(answer.value, Outlook(cfg, later, later, argv[..]))
    {
      hide OutcomeOf, Nonoption, Front, Skipped, Rest, Kept, PassedBy, Ended;
      ghost var was, front, skipped, start := argv[..], Front(argv[..]), Skipped(argv[..]), optind;
      SkipStep(argv, cfg, now, later);
      if optind == argv.Length || argv[optind] == "--" || (Nonoption(argv[optind]) && ordering == RequireOrder) {
        Stop(argv, cfg, now, later);
        return Some(Reply(END, None, None));
      }
      if Nonoption(argv[optind]) {
        var returned := TakeArgument(argv, cfg, now, later, was, start, front, skipped);
        return Some(returned);
      }
      RangeViews(argv[..]);
      OutcomeStart(cfg, ordering, now, later, Front(argv[..]), Skipped(argv[..]), Rest(argv[..]));
      nextchar := Some(Characters(cfg, argv[optind]));
      Views(argv[..]);
      return None;
    }

    /** The scan is over: the options are in front, optind is behind them. */
    ghost predicate Ended(argv: seq<string>, o: Outcome)
      reads this
    {
      o.answers == [] && !o.overrun && argv == o.options + o.others && optind == |o.options|
    }

    /** The decoding half: the next option, with the same end in view. */
    method NextOption(argv: array<string>, optstring: string, cfg: Config, ghost later: string) returns (answer: Answer)
      requires InRange(argv.Length) && Next() != "" && optarg == None && HasTable(cfg, optstring)
      modifies `optind, `nextchar, `optarg, `optopt
      ensures optarg == answer.optarg && old(optind) <= optind
      ensures var o := old(Outlook(cfg, optstring, later, argv[..]));
              if Overrunning(o) then optind == argv.Length + 1 && o.answers == [answer]
              else
                && InRange(argv.Length) && o == Prepend(answer, Outlook(cfg, later, later, argv[..]))
                && Front(argv[..]) == old(Front(argv[..])) + argv[old(optind)..optind]
                && Skipped(argv[..]) == old(Skipped(argv[..]))
    {
      hide OutcomeOf, Front, Skipped, Rest, Decode, InRange;
      RangeViews(argv[..]);
      ghost var o, front, skipped, rest, next := optind, Front(argv[..]), Skipped(argv[..]), Rest(argv[..]), Next();
      assert argv[o + 1..] == rest[1..] && rest[0] == argv[o];
      answer := DecodeOption(argv, optstring, cfg);
      OptionTaken(argv[..], o, cfg, optstring, later, front, skipped, rest, next);
    }

    lemma RangeViews(argv: seq<string>)
      requires InRange(|argv|)
      ensures InOrder(|argv|) && (ordering != Permute ==> firstNonopt == lastNonopt)
      ensures Next() != "" ==> optind < |argv|
      ensures Front(argv) == argv[..firstNonopt] + argv[lastNonopt..optind]
      ensures Skipped(argv) == argv[firstNonopt..lastNonopt] && Rest(argv) == argv[optind..]
    {
    }

    /** The scanner has taken one option, of which the first argument stood at o. */
    lemma OptionTaken(argv: seq<string>, o: nat, cfg: Config, now: string, later: string, front: seq<string>,
                      skipped: seq<string>, rest: seq<string>, next: string)
      requires firstNonopt <= lastNonopt <= o < |argv| && (ordering != Permute ==> firstNonopt == lastNonopt)
      requires front == argv[..firstNonopt] + argv[lastNonopt..o] && skipped == argv[firstNonopt..lastNonopt]
      requires rest == argv[o..] && next != ""
      requires var d := Decode(cfg, now, rest[0], next, rest[1..]); optind == o + d.width && Next() == d.next
      ensures var goal, d := OutcomeOf(cfg, ordering, now, later, front, skipped, rest, next), Decode(cfg, now, rest[0],
                                       next, rest[1..]);
              if Overrunning(goal) then optind == |argv| + 1 && goal.answers == [d.answer]
              else
                && InRange(|argv|) && o <= optind && Skipped(argv) == skipped && Front(argv) == front + argv[o..optind]
                && goal == Prepend(d.answer, Outlook(cfg, later, later, argv))
    {
      hide OutcomeOf, Decode, Front, Skipped, Rest;
      var d := Decode(cfg, now, rest[0], next, rest[1..]);
      OutcomeOption(cfg, ordering, now, later, front, skipped, rest, next);
      if d.width <= |rest| {
        OptionView(argv, firstNonopt, lastNonopt, o, d.width, front, rest);
        Views(argv);
        OutcomeOverrun(cfg, ordering, later, later, front + rest[..d.width], skipped, rest[d.width..], d.next);
      }
    }

    /** _getopt_internal_r once it is initialized: the next answer of the reference
    parser, with the same end in view, or the end itself. */
    method Scan(argv: array<string>, optstring: string, cfg: Config, ghost later: string) returns (answer: Answer)
      requires InRange(argv.Length) && HasTable(cfg, optstring)
      modifies argv, this
      ensures initialized == old(initialized) && ordering == old(ordering)
      ensures var o := old(Outlook(cfg, optstring, later, argv[..]));
              if o.answers == [] then answer.ret == END && Ended(argv[..], o)
              else if Overrunning(o) then optind == argv.Length + 1 && o.answers == [answer] && optarg == answer.optarg
              else
                && InRange(argv.Length) && o == Prepend(answer, Outlook(cfg, later, later, argv[..]))
                && optarg == answer.optarg && old(optind) <= optind
                && Kept(argv[..], old(argv[..]), old(optind), old(Front(argv[..])), old(Skipped(argv[..])),
                        PassedBy(ordering, old(Next()), old(Rest(argv[..]))))
      ensures multiset(argv[..]) == multiset(old(argv[..]))
    {
      hide Outlook, Front, Skipped, Rest, Kept, PassedBy, Ended, HasTable, SameElements;
      optarg := None;
      ghost var was, goal := argv[..], Outlook(cfg, optstring, later, argv[..]);
      ghost var front, skipped, start := Front(argv[..]), Skipped(argv[..]), optind;
      ghost var passed := PassedBy(ordering, Next(), Rest(argv[..]));
      OutlookPermutes(cfg, optstring, later, was);
      if Next() == "" {
        var found := NextElement(argv, cfg, optstring, later);
        if found != None {
          KeptOrEnded(argv[..], was, start, front, skipped, passed, goal);
          if found.value.ret != END { OutlookOverrun(cfg, later, later, argv[..]); }
          return found.value;
        }
      } else {
        KeptAtFirst(was);
      }
      ghost var middle, front' := optind, Front(argv[..]);
      KeptMeans(argv[..], was, start, front, skipped, passed);
      answer := NextOption(argv, optstring, cfg, later);
      if !Overrunning(goal) {
        KeptMore(argv[..], was, start, front, skipped, passed, middle, front');
        KeptOrEnded(argv[..], was, start, front, skipped, passed, goal);
      }
    }

    lemma OutlookOverrun(cfg: Config, now: string, later: string, argv: seq<string>)
      requires InRange(|argv|)
      ensures var o := Outlook(cfg, now, later, argv); o.overrun ==> o.answers != []
    {
      OutcomeOverrun(cfg, ordering, now, later, Front(argv), Skipped(argv), Rest(argv), Next());
    }

    lemma KeptOrEnded(argv: seq<string>, was: seq<string>, start: nat, front: seq<string>, skipped: seq<string>,
                      passed: nat, goal: Outcome)
      requires SameElements(was, goal.options + goal.others)
      requires Ended(argv, goal) || (InOrder(|argv|) && Kept(argv, was, start, front, skipped, passed))
      ensures multiset(argv) == multiset(was) && (Ended(argv, goal) ==> goal.answers == [])
    {
      hide Front, Skipped;
    }

    /** Where the scan ends, nothing is lost and nothing added. */
    lemma OutlookPermutes(cfg: Config, now: string, later: string, argv: seq<string>)
      requires InRange(|argv|)
      ensures var o := Outlook(cfg, now, later, argv); SameElements(argv, o.options + o.others)
    {
      RestParts(argv);
      OutcomePermutes(cfg, ordering, now, later, Front(argv), Skipped(argv), Rest(argv), Next());
      hide OutcomeOf, Front, Skipped, Rest;
    }

    predicate Started()
      reads `initialized, `optind
    {
      initialized && optind != 0
    }

    /** Where the scan will end, seen from before a call. */
    ghost function Prospect(cfg: Config, optstring: string, posixlyCorrect: bool, argv: seq<string>): Outcome
      requires if Started() then InRange(|argv|) else 1 <= |argv| && optind <= |argv|
      reads `initialized, `firstNonopt, `lastNonopt, `optind, `ordering, `nextchar
    {
      if Started() then Outlook(cfg, optstring, optstring, argv)
      else
        var start := if optind == 0 then 1 else optind;
        OutcomeOf(cfg, OrderingOf(optstring, posixlyCorrect), Body(optstring), optstring, argv[..start], [],
                  argv[start..], "")
    }

    /** How far the scan has come before a call: where it goes on, the options so
    far, the arguments skipped so far, and how many the call will skip. */
    ghost function Reached(optstring: string, posixlyCorrect: bool, argv: seq<string>): Position
      requires if Started() then InRange(|argv|) else 1 <= |argv| && optind <= |argv|
      reads `initialized, `firstNonopt, `lastNonopt, `optind, `ordering, `nextchar
    {
      if Started() then Position(optind, Front(argv), Skipped(argv), PassedBy(ordering, Next(), Rest(argv)))
      else
        var start := if optind == 0 then 1 else optind;
        Position(start, argv[..start], [], PassedBy(OrderingOf(optstring, posixlyCorrect), "", argv[start..]))
    }

    /** _getopt_internal_r: one call.  Callers that ask again after the end are
    not covered. */
    method GetoptInternal(argv: array<string>, optstring: string, cfg: Config,
                          posixlyCorrect: bool) returns (answer: Answer)
      requires HasTable(cfg, optstring) && if Started() then InRange(argv.Length) else optind <= argv.Length
      modifies argv, this
      ensures argv.Length < 1 ==> answer.ret == END && optind == old(optind)
      ensures argv.Length >= 1 ==>
        var o := old(Prospect(cfg, optstring, posixlyCorrect, argv[..]));
        if o.answers == [] then answer.ret == END && Ended(argv[..], o)
        else if Overrunning(o) then optind == argv.Length + 1 && o.answers == [answer] && optarg == answer.optarg
        else
          && Started() && InRange(argv.Length) && o == Prepend(answer, Outlook(cfg, optstring, optstring, argv[..]))
          && optarg == answer.optarg
          && ordering == (if old(Started()) then old(ordering) else OrderingOf(optstring, posixlyCorrect))
          && var p := old(Reached(optstring, posixlyCorrect, argv[..]));
             Kept(argv[..], old(argv[..]), p.start, p.front, p.skipped, p.passed)
      ensures multiset(argv[..]) == multiset(old(argv[..]))
    {
      hide OutcomeOf, PassedBy, Kept;
      if argv.Length < 1 {
        return Reply(END, None, None);
      }
      var letters := optstring;
      if optind == 0 || !initialized {
        if optind == 0 {
          optind := 1;
        }
        letters := Initialize(optstring, posixlyCorrect);
        BodyHasTable(cfg, optstring);
        initialized := true;
        assert argv[..optind] + argv[optind..optind] == argv[..optind];
      }
      answer := Scan(argv, letters, cfg, optstring);
    }

    lemma ProspectAnswers(cfg: Config, optstring: string, posixlyCorrect: bool, argv: seq<string>)
      requires !Started() && 1 <= |argv| && optind <= |argv|
      ensures var o := Prospect(cfg, optstring, posixlyCorrect, argv);
              (EndFree(cfg) ==> GoOn(o.answers)) && SameElements(argv, o.options + o.others)
    {
      hide OutcomeOf, GoOn, EndFree, Parse, Body, OrderingOf, SameElements;
      var start := if optind == 0 then 1 else optind;
      var ordering := OrderingOf(optstring, posixlyCorrect);
      if EndFree(cfg) {
        AnswersGoOn(cfg, ordering, Body(optstring), optstring, argv[start..], "");
        OutcomeAnswers(cfg, ordering, Body(optstring), optstring, argv[..start], [], argv[start..], "");
      }
      OutcomePermutes(cfg, ordering, Body(optstring), optstring, argv[..start], [], argv[start..], "");
      assert argv == argv[..start] + [] + argv[start..];
    }

    /** The last call has given answer, which is the next of those left to come on
    the way to the goal, or the end. */
    ghost predicate OnTheWay(cfg: Config, optstring: string, argv: seq<string>, goal: Outcome, left: seq<Answer>,
                             answer: Answer)
      reads this
    {
      if left == [] then answer.ret == END && Ended(argv, goal.(answers := []))
      else
        && Started() && InRange(|argv|)
        && goal.(answers := left) == Prepend(answer, Outlook(cfg, optstring, optstring, argv))
    }

    method First(argv: array<string>, optstring: string, cfg: Config, posixlyCorrect: bool,
                 ghost goal: Outcome) returns (answer: Answer)
      requires !Started() && 1 <= argv.Length && optind <= argv.Length && HasTable(cfg, optstring)
      requires goal == Prospect(cfg, optstring, posixlyCorrect, argv[..]) && !goal.overrun
      modifies argv, this
      ensures OnTheWay(cfg, optstring, argv[..], goal, goal.answers, answer)
    {
      hide OutcomeOf, PassedBy, Kept;
      answer := GetoptInternal(argv, optstring, cfg, posixlyCorrect);
    }

    method Again(argv: array<string>, optstring: string, cfg: Config, posixlyCorrect: bool,
                 ghost goal: Outcome, ghost left: seq<Answer>, ghost last: Answer) returns (answer: Answer)
      requires HasTable(cfg, optstring) && left != [] && OnTheWay(cfg, optstring, argv[..], goal, left, last)
      requires 1 <= argv.Length && !goal.overrun
      modifies argv, this
      ensures last == left[0] && OnTheWay(cfg, optstring, argv[..], goal, left[1..], answer)
    {
      hide OutcomeOf, PassedBy, Kept;
      assert left[1..] != [] ==> left[1..][0] == left[1];
      answer := GetoptInternal(argv, optstring, cfg, posixlyCorrect);
    }

    /** The loop of a caller: it asks until it is told -1.  If a long option has that
    value, the caller stops there and the scan could still go on.  After a call that
    overruns, asking again has no defined meaning. */
    method Run(argv: array<string>, optstring: string, cfg: Config, posixlyCorrect: bool) returns (answers: seq<Answer>)
      requires !Started() && 1 <= argv.Length && optind <= argv.Length && HasTable(cfg, optstring)
      requires !Prospect(cfg, optstring, posixlyCorrect, argv[..]).overrun
      modifies argv, this
      ensures var o := old(Prospect(cfg, optstring, posixlyCorrect, argv[..]));
              && answers == Heard(o.answers) && (EndFree(cfg) ==> GoOn(o.answers))
              && if GoOn(o.answers)
                 then answers == o.answers && argv[..] == o.options + o.others && optind == |o.options|
                 else
                   && |answers| < |o.answers| && InRange(argv.Length)
                   && Outlook(cfg, optstring, optstring, argv[..]) == o.(answers := o.answers[|answers| + 1..])
      ensures multiset(argv[..]) == multiset(old(argv[..]))
    {
      hide OutcomeOf, Outlook, InRange, OnTheWay, SameElements, Heard, GoOn, EndFree, Prospect, Ended;
      GoesOnMore([], []);
      ghost var goal := Prospect(cfg, optstring, posixlyCorrect, argv[..]);
      ProspectAnswers(cfg, optstring, posixlyCorrect, argv[..]);
      answers := [];
      ghost var left := goal.answers;
      var answer := First(argv, optstring, cfg, posixlyCorrect, goal);
      OnTheWayEnd(cfg, optstring, argv[..], goal, left, answer);
      while answer.ret != END
        invariant goal.answers == answers + left && GoOn(answers) && (left == [] ==> answer.ret == END)
        invariant OnTheWay(cfg, optstring, argv[..], goal, left, answer)
        decreases |left|
      {
        GoesOnMore(answers, left);
        answers := answers + [answer];
        answer := Again(argv, optstring, cfg, posixlyCorrect, goal, left, answer);
        left := left[1..];
        OnTheWayEnd(cfg, optstring, argv[..], goal, left, answer);
      }
      RunEnds(cfg, optstring, argv[..], goal, answers, left, answer);
      SameElementsBoth(argv[..], old(argv[..]), goal.options + goal.others);
    }

    lemma RunEnds(cfg: Config, optstring: string, argv: seq<string>, goal: Outcome, answers: seq<Answer>,
                  left: seq<Answer>, answer: Answer)
      requires OnTheWay(cfg, optstring, argv, goal, left, answer) && answer.ret == END
      requires goal.answers == answers + left && GoOn(answers)
      ensures answers == Heard(goal.answers) && SameElements(argv, goal.options + goal.others)
      ensures GoOn(goal.answers) ==>
        answers == goal.answers && argv == goal.options + goal.others && optind == |goal.options|
      ensures !GoOn(goal.answers) ==>
        && |answers| < |goal.answers| && InRange(|argv|)
        && Outlook(cfg, optstring, optstring, argv) == goal.(answers := goal.answers[|answers| + 1..])
    {
      OnTheWayNow(cfg, optstring, argv, goal, left, answer);
      hide OnTheWay, SameElements, Heard, GoOn, Outlook, InRange;
      HeardUpTo(answers, left);
      assert answers + [] == answers;
    }

    lemma OnTheWayEnd(cfg: Config, optstring: string, argv: seq<string>, goal: Outcome, left: seq<Answer>,
                      answer: Answer)
      requires OnTheWay(cfg, optstring, argv, goal, left, answer)
      ensures left == [] ==> answer.ret == END
    {
    }

    lemma OnTheWayNow(cfg: Config, optstring: string, argv: seq<string>, goal: Outcome, left: seq<Answer>,
                      answer: Answer)
      requires OnTheWay(cfg, optstring, argv, goal, left, answer)
      ensures left == [] ==> answer.ret == END && Ended(argv, goal.(answers := []))
      ensures left != [] ==> answer == left[0] && InRange(|argv|)
      ensures left != [] ==> Outlook(cfg, optstring, optstring, argv) == goal.(answers := left[1..])
      ensures SameElements(argv, goal.options + goal.others)
    {
      hide OutcomeOf;
      if left != [] { OutlookPermutes(cfg, optstring, optstring, argv); }
    }

    /** What a decoded option does to the scanner. */
    ghost predicate Took(d: Decoded, start: nat, opt: int, answer: Answer)
      reads this
    {
      && answer == d.answer && optind == start + d.width && Next() == d.next && optarg == answer.optarg
      && optopt == (if answer.optopt == None then opt else answer.optopt.value)
    }
  }

  /** An option string with "W;" comes with a table of long options. */
  predicate HasTable(cfg: Config, optstring: string) {
    At(StrChr(optstring, 'W'), 1) == ';' ==> cfg.longopts != None
  }

  lemma BodyHasTable(cfg: Config, optstring: string)
    requires HasTable(cfg, optstring)
    ensures HasTable(cfg, Body(optstring))
  {
  }

  ghost predicate SameElements<T>(a: seq<T>, b: seq<T>) {
    multiset(a) == multiset(b)
  }

  lemma SameElementsBoth<T>(a: seq<T>, b: seq<T>, c: seq<T>)
    requires SameElements(a, c) && SameElements(b, c)
    ensures multiset(a) == multiset(b)
  {
  }

  lemma OutcomeAnswers(cfg: Config, ordering: Ordering, now: string, later: string,
                       front: seq<string>, skipped: seq<string>, rest: seq<string>, next: string)
    ensures OutcomeOf(cfg, ordering, now, later, front, skipped, rest, next).answers
         == Parse(cfg, ordering, now, later, rest, next).answers
  {
  }

  lemma OutcomePermutes(cfg: Config, ordering: Ordering, now: string, later: string,
                        front: seq<string>, skipped: seq<string>, rest: seq<string>, next: string)
    ensures var o := OutcomeOf(cfg, ordering, now, later, front, skipped, rest, next);
            SameElements(front + skipped + rest, o.options + o.others)
  {
    hide Parse, Pick;
    var labels := Parse(cfg, ordering, now, later, rest, next).labels;
    PickPermutes(rest, labels);
    BothMore(front, skipped, Pick(rest, labels, true), Pick(rest, labels, false), rest);
  }

  lemma BothMore<T>(front: seq<T>, skipped: seq<T>, yes: seq<T>, no: seq<T>, all: seq<T>)
    requires multiset(yes + no) == multiset(all)
    ensures multiset((front + yes) + (skipped + no)) == multiset(front + skipped + all)
  {
  }

  /** It is an answer that overruns. */
  lemma {:induction false} OutcomeOverrun(cfg: Config, ordering: Ordering, now: string, later: string,
                                          front: seq<string>,
                                          skipped: seq<string>, rest: seq<string>, next: string)
    ensures var o := OutcomeOf(cfg, ordering, now, later, front, skipped, rest, next); o.overrun ==> o.answers != []
  {
    ParseOverrun(cfg, ordering, now, later, rest, next);
  }

  lemma {:induction false} ParseOverrun(cfg: Config, ordering: Ordering, now: string, later: string, rest: seq<string>,
                                        next: string)
    ensures var p := Parse(cfg, ordering, now, later, rest, next); p.overrun ==> p.answers != []
    decreases |rest|, if rest == [] then 0 else if next == "" then |rest[0]| + 1 else |next|
  {
    hide Parse, Decode, Nonoption, Characters;
    ParseStep(cfg, ordering, now, later, rest, next);
    if rest != [] && next == "" {
      if Nonoption(rest[0]) {
        if ordering == Permute { ParseOverrun(cfg, ordering, now, later, rest[1..], ""); }
      } else if rest[0] != "--" {
        ParseOverrun(cfg, ordering, now, later, rest, Characters(cfg, rest[0]));
      }
    }
  }

  lemma SkipOutlook(cfg: Config, ordering: Ordering, now: string, later: string,
                    front: seq<string>, skipped: seq<string>, rest: seq<string>)
    ensures var n := PassedBy(ordering, "", rest);
            OutcomeOf(cfg, ordering, now, later, front, skipped, rest, "") ==
              OutcomeOf(cfg, ordering, now, later, front, skipped + rest[..n], rest[n..], "")
  {
    hide OutcomeOf;
    if ordering == Permute {
      OutcomeSkip(cfg, now, later, front, skipped, rest, Leading(rest));
    } else {
      assert skipped + rest[..0] == skipped && rest[0..] == rest;
    }
  }

  lemma NothingMore<T>(s: seq<T>)
    ensures s + [] == s
  {
  }

  lemma WholeView<T>(s: seq<T>, f: nat, l: nat, o: nat)
    requires f <= l <= o <= |s| && (f == l || l == o)
    ensures s == (s[..f] + s[l..o]) + (s[f..l] + s[o..]) && |s[..f] + s[l..o]| == f + (o - l)
    ensures o < |s| ==> s[o..] != [] && s[o..][0] == s[o]
  {
  }

  lemma ThreeParts<T>(s: seq<T>, a: nat, b: nat, c: nat)
    requires a <= b <= c <= |s|
    ensures s[a..] == s[a..b] + s[b..c] + s[c..]
  {
  }

  lemma PartsMixed<T>(argv: seq<T>, was: seq<T>, a: nat, b: nat, c: nat, front': seq<T>, skipped': seq<T>,
                      front: seq<T>, skipped: seq<T>)
    requires a <= b <= c <= |was| == |argv| && argv[c..] == was[c..]
    requires front' == front + was[b..c] && skipped' == skipped + was[a..b]
    requires SameElements(argv, front' + skipped' + argv[c..])
    requires SameElements(was, front + skipped + was[a..])
    ensures SameElements(argv, was)
  {
    ThreeParts(was, a, b, c);
  }

  lemma SuffixView<T>(s: seq<T>, start: nat, o: nat)
    requires start <= o <= |s|
    ensures s[start..][o - start..] == s[o..] && s[start..][..o - start] == s[start..o] && s[o..o] == []
  {
  }

  lemma ConsumeView<T>(s: seq<T>, f: nat, l: nat, o: nat, w: nat)
    requires f <= l <= o && o + w <= |s|
    ensures s[..f] + s[l..o + w] == s[..f] + s[l..o] + s[o..][..w] && s[o + w..] == s[o..][w..]
  {
  }

  lemma OptionView<T>(s: seq<T>, f: nat, l: nat, o: nat, w: nat, front: seq<T>, rest: seq<T>)
    requires f <= l <= o && o + w <= |s| && front == s[..f] + s[l..o] && rest == s[o..]
    ensures s[..f] + s[l..o + w] == front + rest[..w] == front + s[o..o + w] && s[o + w..] == rest[w..]
  {
    ConsumeView(s, f, l, o, w);
    assert rest[..w] == s[o..o + w];
  }

  lemma SkipAllView<T>(s: seq<T>, f: nat, l: nat, o: nat, s': seq<T>, f': nat)
    requires f <= l <= o < |s|
    requires if f < l then s' == Exchanged(s, f, l, o + 1) && f' == f + (o + 1 - l) else s' == s && f' == o + 1
    ensures f' <= |s'| && s'[..f'] == s[..f] + s[l..o] + s[o..][..1] && s'[f'..] == s[f..l] + s[o..][1..]
  {
    assert s[l..o + 1] == s[l..o] + s[o..][..1] && s[o..][1..] == s[o + 1..];
    if f == l {
      assert s[..o + 1] == s[..f] + s[l..o + 1];
    }
  }

  lemma SkipView<T>(s: seq<T>, f: nat, start: nat, o: nat, front: seq<T>, skipped: seq<T>, rest: seq<T>)
    requires f <= start <= o <= |s|
    requires s[..f] == front && s[f..start] == skipped && s[start..] == rest
    ensures s[..f] + s[o..o] == front && s[f..o] == skipped + rest[..o - start] && s[o..] == rest[o - start..]
    ensures forall i {:trigger rest[i]} :: 0 <= i < |s| - start ==> rest[i] == s[start + i]
  {
    assert s[o..o] == [] && s[..f] + [] == s[..f];
    assert s[f..o] == s[f..start] + s[start..o];
    SuffixView(s, start, o);
  }
}
