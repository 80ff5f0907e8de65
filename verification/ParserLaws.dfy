/** What single arguments mean to the parser of getoptw.c, in the words of its
documentation: long options by name or abbreviation, short options, arguments
that are attached or stand behind, and arguments that are no options.

Each law speaks of the result of a whole parse whose first argument is the one in
question, and of nothing that the parser computes on the way. */
module ParserLaws {
  import opened Getopt
  import opened Threads

  // ---------------------------------------------------------- characters

  /** NameLength stops at the first equals sign, and nowhere else. */
  lemma {:induction false} NameEndsAtEquals(name: string, text: string)
    requires '=' !in name && (text == "" || text[0] == '=')
    ensures NameLength(name + text) == |name|
  {
    if name == "" {
      assert name + text == text;
    } else {
      assert (name + text)[1..] == name[1..] + text;
      NameEndsAtEquals(name[1..], text);
    }
  }

  /** strchr finds the first occurrence. */
  lemma {:induction false} FoundFirst(pre: string, c: char, post: string)
    requires c !in pre
    ensures StrChr(pre + [c] + post, c) == [c] + post
  {
    if pre == "" {
      assert pre + [c] + post == [c] + post;
    } else {
      assert (pre + [c] + post)[1..] == pre[1..] + [c] + post;
      FoundFirst(pre[1..], c, post);
    }
  }

  // -------------------------------------------------------- the first answer

  /** The parse gives this answer for its first arguments, so many of them, and goes
  on with the others. */
  ghost predicate Leads(cfg: Config, ordering: Ordering, later: string, p: Parsed, answer: Answer, used: nat,
                        behind: seq<string>)
  {
    && 1 <= used <= 1 + |behind|
    && var q := Parse(cfg, ordering, later, later, behind[used - 1..], "");
       p == Parsed(Repeat(true, used) + q.labels, [answer] + q.answers, q.overrun)
  }

  lemma FirstAnswer(cfg: Config, ordering: Ordering, now: string, later: string, elem: string, behind: seq<string>,
                    next: string)
    requires !Nonoption(elem) && elem != "--" && next != "" && Characters(cfg, elem) == next
    ensures var d := Decode(cfg, now, elem, next, behind);
            1 <= d.width <= 1 + |behind| ==>
              Leads(cfg, ordering, later, Parse(cfg, ordering, now, later, [elem] + behind, ""), d.answer, d.width,
                    behind)
    ensures var (d, p) := (Decode(cfg, now, elem, next, behind), Parse(cfg, ordering, now, later, [elem] + behind, ""));
            d.width > 1 + |behind| ==> p == Parsed(Repeat(true, 1 + |behind|), [d.answer], true)
    ensures var (d, p) := (Decode(cfg, now, elem, next, behind), Parse(cfg, ordering, now, later, [elem] + behind, ""));
            d.width == 0 ==>
              p == var q := Parse(cfg, ordering, later, later, [elem] + behind, d.next);
                   q.(answers := [d.answer] + q.answers)
  {
    hide Parse, Decode, Nonoption, Characters;
    var rest := [elem] + behind;
    var d := Decode(cfg, now, elem, next, behind);
    assert rest[0] == elem && rest[1..] == behind && rest[0..] == rest;
    assert 1 <= d.width <= 1 + |behind| ==> rest[d.width..] == behind[d.width - 1..];
    ParseStep(cfg, ordering, now, later, rest, "");
    ParseStep(cfg, ordering, now, later, rest, next);
    assert Repeat(true, 0) == [];
    assert forall q: seq<bool> :: [] + q == q;
  }

  function Value(o: LongOption): int { if o.flag == None then o.val else 0 }

  /** The variable that the option sets instead. */
  function Stores(o: LongOption): Option<(nat, int)> {
    if o.flag == None then None else Some((o.flag.value, o.val))
  }

  /** What is reported where an argument is missing. */
  function Lacking(optstring: string): int {
    if optstring != "" && optstring[0] == ':' then ':' as int else '?' as int
  }

  /** The answer for table entry i without text behind an equals sign, and the number
  of arguments used up. */
  function NamedAnswer(optstring: string, longopts: seq<LongOption>, i: nat, behind: seq<string>): (Answer, nat)
    requires i < |longopts|
  {
    var o := longopts[i];
    if o.hasArg != 1 then (Answer(Value(o), None, None, Some(i), Stores(o)), 1)
    else if behind == [] then (Answer(Lacking(optstring), None, Some(o.val), None, None), 1)
    else (Answer(Value(o), Some(behind[0]), None, Some(i), Stores(o)), 2)
  }

  /** The answer with it. */
  function TextAnswer(longopts: seq<LongOption>, i: nat, text: string): Answer
    requires i < |longopts|
  {
    var o := longopts[i];
    if o.hasArg == 0 then Answer('?' as int, None, Some(o.val), None, None)
    else Answer(Value(o), Some(text), None, Some(i), Stores(o))
  }

  /** An argument that is looked up in the table: "--name", or under long_only
  "-name" unless it is one declared letter. */
  predicate LongElem(cfg: Config, optstring: string, elem: string, tail: string) {
    || elem == "--" + tail
    || (cfg.longOnly && elem == "-" + tail && tail != "" && tail[0] != '-' && tail[0] != '\0'
        && ((1 < |tail| && tail[1] != '\0') || tail[0] !in optstring))
  }

  lemma LongStart(cfg: Config, optstring: string, elem: string, tail: string)
    requires cfg.longopts.Some? && tail != "" && LongElem(cfg, optstring, elem, tail)
    ensures !Nonoption(elem) && elem != "--" && Characters(cfg, elem) == tail && TriesLong(cfg, optstring, elem)
    ensures At(elem, 1) == '-' || (cfg.longOnly && At(elem, 1) == tail[0])
  {
    if elem == "--" + tail {
      assert elem[2..] == tail && elem[1] == '-';
    } else {
      assert elem[1..] == tail && elem[1] == tail[0];
      StrChrFinds(optstring, tail[0]);
    }
  }

  /** name is the exact name of entry i and of no other in front of it, or it
  abbreviates entry i alone, or first among equivalent ones. */
  predicate Names(longopts: seq<LongOption>, longOnly: bool, name: string, i: nat) {
    && i < |longopts|
    && if longopts[i].name == name then forall j :: 0 <= j < i ==> longopts[j].name != name
       else
         && name <= longopts[i].name
         && (forall j :: 0 <= j < |longopts| ==> longopts[j].name != name)
         && (forall j :: 0 <= j < i ==> !(name <= longopts[j].name))
         && (forall j :: i < j < |longopts| && name <= longopts[j].name ==>
               !longOnly && longopts[j].hasArg == longopts[i].hasArg && longopts[j].flag == longopts[i].flag
               && longopts[j].val == longopts[i].val)
  }

  lemma MatchOf(longopts: seq<LongOption>, longOnly: bool, name: string, i: nat)
    requires Names(longopts, longOnly, name, i)
    ensures LongMatch(longopts, name, longOnly) == Found(i)
  {
    if longopts[i].name == name {
      FirstHitUnique(longopts, name, true, i);
    } else {
      FirstHitUnique(longopts, name, true, |longopts|);
      FirstHitUnique(longopts, name, false, i);
    }
  }

  lemma NamedFound(optstring: string, longopts: seq<LongOption>, i: nat, behind: seq<string>)
    requires i < |longopts|
    ensures var d := DecodeFound(optstring, longopts[i], i, None, behind);
            (d.answer, d.width) == NamedAnswer(optstring, longopts, i, behind)
  {
  }

  /** A long option by its name or an abbreviation. */
  lemma LongByName(cfg: Config, ordering: Ordering, now: string, later: string, elem: string, name: string, i: nat,
                   behind: seq<string>)
    requires cfg.longopts.Some? && name != "" && '=' !in name && LongElem(cfg, now, elem, name)
    requires Names(cfg.longopts.value, cfg.longOnly, name, i)
    ensures var (p, a) := (Parse(cfg, ordering, now, later, [elem] + behind, ""),
                           NamedAnswer(now, cfg.longopts.value, i, behind));
            Leads(cfg, ordering, later, p, a.0, a.1, behind)
  {
    NamedFound(now, cfg.longopts.value, i, behind);
    hide Parse, LongMatch, NameLength, LongElem, Names, Characters, Nonoption, TriesLong, NamedAnswer, DecodeFound;
    hide DecodeShort, Leads;
    LongStart(cfg, now, elem, name);
    NameEndsAtEquals(name, "");
    assert name + "" == name && name[..|name|] == name;
    MatchOf(cfg.longopts.value, cfg.longOnly, name, i);
    FirstAnswer(cfg, ordering, now, later, elem, behind, name);
  }

  /** The same with text behind an equals sign. */
  lemma LongWithText(cfg: Config, ordering: Ordering, now: string, later: string, elem: string, name: string, i: nat,
                     text: string, behind: seq<string>)
    requires cfg.longopts.Some? && name != "" && '=' !in name && LongElem(cfg, now, elem, name + "=" + text)
    requires Names(cfg.longopts.value, cfg.longOnly, name, i)
    ensures var p := Parse(cfg, ordering, now, later, [elem] + behind, "");
            Leads(cfg, ordering, later, p, TextAnswer(cfg.longopts.value, i, text), 1, behind)
  {
    hide Parse, LongMatch, NameLength, LongElem, Names, Characters, Nonoption, TriesLong;
    var tail := name + "=" + text;
    LongStart(cfg, now, elem, tail);
    NameEndsAtEquals(name, "=" + text);
    assert name + ("=" + text) == tail && tail[..|name|] == name && tail[|name| + 1..] == text;
    MatchOf(cfg.longopts.value, cfg.longOnly, name, i);
    FirstAnswer(cfg, ordering, now, later, elem, behind, tail);
  }

  /** A name that is not exact and abbreviates entry i and a later one j that differs
  from it, all the same under long_only. */
  predicate Unclear(longopts: seq<LongOption>, longOnly: bool, name: string, i: nat, j: nat) {
    && i < j < |longopts| && name <= longopts[i].name && name <= longopts[j].name
    && (forall k :: 0 <= k < |longopts| ==> longopts[k].name != name)
    && (forall k :: 0 <= k < i ==> !(name <= longopts[k].name))
    && (longOnly || longopts[j].hasArg != longopts[i].hasArg || longopts[j].flag != longopts[i].flag
        || longopts[j].val != longopts[i].val)
  }

  predicate Unknown(longopts: seq<LongOption>, name: string) {
    forall k :: 0 <= k < |longopts| ==> !(name <= longopts[k].name)
  }

  lemma NoMatchOf(longopts: seq<LongOption>, longOnly: bool, name: string)
    ensures Unknown(longopts, name) ==> LongMatch(longopts, name, longOnly) == NoMatch
    ensures (exists i: nat, j: nat :: Unclear(longopts, longOnly, name, i, j)) ==>
      LongMatch(longopts, name, longOnly) == Ambiguous
  {
    if Unknown(longopts, name) {
      FirstHitUnique(longopts, name, true, |longopts|);
      FirstHitUnique(longopts, name, false, |longopts|);
    }
    if i: nat, j: nat :| Unclear(longopts, longOnly, name, i, j) {
      FirstHitUnique(longopts, name, true, |longopts|);
      FirstHitUnique(longopts, name, false, i);
      assert Clashes(longopts, name, longOnly, i, j);
    }
  }

  /** A long option that is ambiguous or unknown is answered '?' with optopt 0; an
  unknown one only if it cannot be a short option. */
  lemma LongUnclear(cfg: Config, ordering: Ordering, now: string, later: string, elem: string, name: string,
                    text: string, behind: seq<string>)
    requires cfg.longopts.Some? && name + text != "" && '=' !in name && (text == "" || text[0] == '=')
    requires LongElem(cfg, now, elem, name + text)
    requires || (exists i: nat, j: nat :: Unclear(cfg.longopts.value, cfg.longOnly, name, i, j))
             || (Unknown(cfg.longopts.value, name)
                 && (elem == "--" + (name + text) || (name + text)[0] !in now))
    ensures var p := Parse(cfg, ordering, now, later, [elem] + behind, "");
            Leads(cfg, ordering, later, p, Answer('?' as int, None, Some(0), None, None), 1, behind)
  {
    hide Parse, LongMatch, NameLength, Unclear, Unknown, Characters, Nonoption, TriesLong;
    var tail := name + text;
    LongStart(cfg, now, elem, tail);
    NameEndsAtEquals(name, text);
    assert tail[..|name|] == name;
    NoMatchOf(cfg.longopts.value, cfg.longOnly, name);
    StrChrFinds(now, tail[0]);
    assert elem == "--" + tail ==> At(elem, 1) == '-';
    FirstAnswer(cfg, ordering, now, later, elem, behind, tail);
  }

  // --------------------------------------------------------- short options

  /** The argument is not looked up in the table, or not found there under long_only:
  it is a short option. */
  ghost predicate ShortElem(cfg: Config, optstring: string, elem: string, letters: string) {
    && elem == "-" + letters && letters != "" && letters[0] != '\0' && letters != "-"
    && match cfg.longopts
       case None => true
       case Some(longopts) =>
         letters[0] != '-' && (cfg.longOnly ==>
           letters[0] in optstring &&
             (letters[1..] == "" || letters[1] == '\0' || exists n: nat :: UnknownFrom(longopts, letters, n)))
  }

  /** No entry has a name that starts with the text in front of the equals sign. */
  ghost predicate UnknownFrom(longopts: seq<LongOption>, letters: string, n: nat) {
    && n <= |letters| && '=' !in letters[..n] && (n < |letters| ==> letters[n] == '=')
    && Unknown(longopts, letters[..n])
  }

  lemma ShortStart(cfg: Config, optstring: string, elem: string, letters: string, behind: seq<string>)
    requires ShortElem(cfg, optstring, elem, letters)
    ensures !Nonoption(elem) && elem != "--" && Characters(cfg, elem) == letters
    ensures Decode(cfg, optstring, elem, letters, behind) == DecodeShort(cfg, optstring, letters, behind)
  {
    hide DecodeShort, LongMatch, NameLength, Unknown;
    assert elem[1..] == letters && elem[1] == letters[0];
    StrChrFinds(optstring, letters[0]);
    if TriesLong(cfg, optstring, elem) {
      var n: nat :| UnknownFrom(cfg.longopts.value, letters, n);
      NameEndsAtEquals(letters[..n], letters[n..]);
      assert letters[..n] + letters[n..] == letters;
      NoMatchOf(cfg.longopts.value, cfg.longOnly, letters[..n]);
    }
  }

  lemma UndeclaredDecoded(cfg: Config, now: string, letters: string, behind: seq<string>)
    requires letters != "" && (letters[0] !in now || letters[0] == ':')
    ensures DecodeShort(cfg, now, letters, behind)
         == Decoded(Answer('?' as int, None, Some(letters[0] as int), None, None), if letters[1..] == "" then 1 else 0,
                    letters[1..])
  {
    StrChrFinds(now, letters[0]);
    hide StrChr;
  }

  lemma FlagDecoded(cfg: Config, pre: string, c: char, post: string, letters: string, behind: seq<string>)
    requires c !in pre && c != ':' && (post == "" || post[0] != ':') && (c == 'W' ==> post == "" || post[0] != ';')
    ensures DecodeShort(cfg, pre + [c] + post, [c] + letters, behind)
         == Decoded(Answer(c as int, None, None, None, None), if letters == "" then 1 else 0, letters)
  {
    hide StrChr;
    FoundFirst(pre, c, post);
    assert ([c] + letters)[1..] == letters;
  }

  /** How a declared letter with an argument is answered, and how many arguments are
  used up. */
  function ArgumentAnswer(now: string, c: char, optional: bool, text: string, behind: seq<string>): (Answer, nat) {
    if text != "" then (Answer(c as int, Some(text), None, None, None), 1)
    else if optional then (Answer(c as int, None, None, None, None), 1)
    else if behind == [] then (Answer(Lacking(now), None, Some(c as int), None, None), 1)
    else (Answer(c as int, Some(behind[0]), None, None, None), 2)
  }

  lemma ArgumentDecoded(cfg: Config, pre: string, c: char, post: string, text: string, behind: seq<string>)
    requires c !in pre && c != ':' && post != "" && post[0] == ':'
    ensures var now := pre + [c] + post;
            var a := ArgumentAnswer(now, c, 1 < |post| && post[1] == ':', text, behind);
            DecodeShort(cfg, now, [c] + text, behind) == Decoded(a.0, a.1, "")
  {
    hide StrChr;
    FoundFirst(pre, c, post);
    assert ([c] + text)[1..] == text;
    assert At([c] + post, 2) == At(post, 1);
  }

  lemma WDecoded(cfg: Config, pre: string, post: string, tail: string, behind: seq<string>)
    requires 'W' !in pre && post != "" && post[0] == ';'
    ensures DecodeShort(cfg, pre + "W" + post, "W" + tail, behind) == DecodeW(cfg, pre + "W" + post, tail, behind)
  {
    hide StrChr, DecodeW;
    FoundFirst(pre, 'W', post);
    assert ("W" + tail)[1..] == tail;
  }

  /** The parse gives this answer, and goes on with the other letters, if any. */
  ghost predicate LeadsOn(cfg: Config, ordering: Ordering, later: string, p: Parsed, answer: Answer, elem: string,
                          letters: string, behind: seq<string>)
  {
    if letters == "" then Leads(cfg, ordering, later, p, answer, 1, behind)
    else
      p == var q := Parse(cfg, ordering, later, later, [elem] + behind, letters);
           q.(answers := [answer] + q.answers)
  }

  /** A letter that is not declared. */
  lemma ShortUndeclared(cfg: Config, ordering: Ordering, now: string, later: string, elem: string, letters: string,
                        behind: seq<string>)
    requires ShortElem(cfg, now, elem, letters) && (letters[0] !in now || letters[0] == ':')
    ensures var p := Parse(cfg, ordering, now, later, [elem] + behind, "");
            LeadsOn(cfg, ordering, later, p, Answer('?' as int, None, Some(letters[0] as int), None, None), elem,
                    letters[1..], behind)
  {
    hide Parse, Decode, DecodeShort, Characters, Nonoption, ShortElem, Leads;
    ShortStart(cfg, now, elem, letters, behind);
    UndeclaredDecoded(cfg, now, letters, behind);
    FirstAnswer(cfg, ordering, now, later, elem, behind, letters);
  }

  /** A declared letter that takes no argument. */
  lemma ShortFlag(cfg: Config, ordering: Ordering, pre: string, c: char, post: string, later: string,
                  elem: string, letters: string, behind: seq<string>)
    requires ShortElem(cfg, pre + [c] + post, elem, [c] + letters) && c !in pre && c != ':'
    requires (post == "" || post[0] != ':') && (c == 'W' ==> post == "" || post[0] != ';')
    ensures var p := Parse(cfg, ordering, pre + [c] + post, later, [elem] + behind, "");
            LeadsOn(cfg, ordering, later, p, Answer(c as int, None, None, None, None), elem, letters, behind)
  {
    hide Parse, Decode, DecodeShort, Characters, Nonoption, ShortElem, Leads;
    ShortStart(cfg, pre + [c] + post, elem, [c] + letters, behind);
    FlagDecoded(cfg, pre, c, post, letters, behind);
    FirstAnswer(cfg, ordering, pre + [c] + post, later, elem, behind, [c] + letters);
  }

  /** A declared letter with a colon behind it takes an argument, with two only if it
  is attached. */
  lemma ShortWithArgument(cfg: Config, ordering: Ordering, pre: string, c: char, post: string, later: string,
                          elem: string, text: string, behind: seq<string>)
    requires ShortElem(cfg, pre + [c] + post, elem, [c] + text) && c !in pre && c != ':' && post != "" && post[0] == ':'
    ensures var now := pre + [c] + post;
            var a := ArgumentAnswer(now, c, 1 < |post| && post[1] == ':', text, behind);
            Leads(cfg, ordering, later, Parse(cfg, ordering, now, later, [elem] + behind, ""), a.0, a.1, behind)
  {
    hide Parse, Decode, DecodeShort, Characters, Nonoption, ShortElem, Leads, Lacking;
    ShortStart(cfg, pre + [c] + post, elem, [c] + text, behind);
    ArgumentDecoded(cfg, pre, c, post, text, behind);
    FirstAnswer(cfg, ordering, pre + [c] + post, later, elem, behind, [c] + text);
  }

  /** Nothing in the argument can be a long option. */
  predicate Plain(cfg: Config, elem: string) {
    cfg.longopts == None || (!cfg.longOnly && At(elem, 1) != '-')
  }

  /** Which argument the letters stand in does not matter then. */
  lemma {:induction false} AnyElem(cfg: Config, ordering: Ordering, now: string, later: string, elem: string,
                                   other: string, letters: string, behind: seq<string>)
    requires Plain(cfg, elem) && Plain(cfg, other) && letters != ""
    ensures Parse(cfg, ordering, now, later, [elem] + behind, letters)
         == Parse(cfg, ordering, now, later, [other] + behind, letters)
    decreases |letters|
  {
    hide Parse, DecodeShort, Characters, Nonoption;
    var (r, t) := ([elem] + behind, [other] + behind);
    var d := Decode(cfg, now, elem, letters, behind);
    assert r[0] == elem && t[0] == other && r[1..] == behind == t[1..] && r[0..] == r && t[0..] == t;
    ParseStep(cfg, ordering, now, later, r, letters);
    ParseStep(cfg, ordering, now, later, t, letters);
    if d.width == 0 {
      AnyElem(cfg, ordering, later, later, elem, other, d.next, behind);
    } else if d.width <= |r| {
      assert r[d.width..] == t[d.width..];
    }
  }

  /** The other letters of an argument are answered as in an argument of their own. */
  lemma LettersApart(cfg: Config, ordering: Ordering, later: string, elem: string, letters: string, behind: seq<string>)
    requires Plain(cfg, elem) && Plain(cfg, "-" + letters)
    requires letters != "" && letters != "-" && letters[0] != '\0'
    ensures Parse(cfg, ordering, later, later, [elem] + behind, letters)
         == Parse(cfg, ordering, later, later, ["-" + letters] + behind, "")
  {
    var other := "-" + letters;
    AnyElem(cfg, ordering, later, later, elem, other, letters, behind);
    assert other[1..] == letters && other[1] == letters[0] && other != "--";
    assert !Nonoption(other) && Characters(cfg, other) == letters;
    hide Parse, Decode, Characters, Nonoption;
    ParseStep(cfg, ordering, later, later, [other] + behind, "");
    assert ([other] + behind)[0] == other;
  }

  // ------------------------------------------------------------- -W foo

  /** How the long option behind -W is answered; used arguments precede others. */
  function WAnswer(optstring: string, longopts: seq<LongOption>, i: nat, arg: string, name: string, used: nat,
                   behind: seq<string>): (Answer, nat)
    requires i < |longopts| && name <= arg && 1 <= used <= 1 + |behind|
  {
    var o := longopts[i];
    if name < arg && o.hasArg == 0 then (Answer('?' as int, Some(arg), None, None, None), used)
    else if name < arg then (Answer(Value(o), Some(arg[|name| + 1..]), None, Some(i), Stores(o)), used)
    else if o.hasArg != 1 then (Answer(Value(o), Some(arg), None, Some(i), Stores(o)), used)
    else if used == 1 + |behind| then (Answer(Lacking(optstring), Some(arg), None, None, None), used)
    else (Answer(Value(o), Some(behind[used - 1]), None, Some(i), Stores(o)), used + 1)
  }

  /** The text that belongs to -W, and how many arguments end with it. */
  predicate WText(tail: string, behind: seq<string>, arg: string, used: nat) {
    if tail != "" then arg == tail && used == 1 else behind != [] && arg == behind[0] && used == 2
  }

  lemma WFound(optstring: string, longopts: seq<LongOption>, i: nat, arg: string, name: string, used: nat,
               behind: seq<string>)
    requires i < |longopts| && name <= arg && 1 <= used <= 1 + |behind|
    ensures var d := DecodeNamed(optstring, longopts[i], i, arg, |name|, used, behind);
            (d.answer, d.width) == WAnswer(optstring, longopts, i, arg, name, used, behind)
  {
  }

  lemma WTextDecoded(cfg: Config, optstring: string, tail: string, arg: string, used: nat, behind: seq<string>)
    requires cfg.longopts.Some? && WText(tail, behind, arg, used)
    ensures var n := NameLength(arg);
            DecodeW(cfg, optstring, tail, behind) ==
              match LongMatch(cfg.longopts.value, arg[..n], true)
              case Ambiguous => Decoded(Answer('?' as int, Some(arg), None, None, None), used + 1, "")
              case NoMatch => Decoded(Answer('W' as int, Some(arg), None, None, None), used, "")
              case Found(i) => DecodeNamed(optstring, cfg.longopts.value[i], i, arg, n, used, behind)
  {
    hide LongMatch, NameLength, DecodeNamed;
  }

  /** -W with "W;" in the option string: a long option by its clear name, where every
  two abbreviated options clash. */
  lemma WByName(cfg: Config, ordering: Ordering, pre: string, post: string, later: string, elem: string, tail: string,
                arg: string, name: string, i: nat, used: nat, behind: seq<string>)
    requires ShortElem(cfg, pre + "W" + post, elem, "W" + tail) && 'W' !in pre && post != "" && post[0] == ';'
    requires cfg.longopts.Some? && WText(tail, behind, arg, used)
    requires name <= arg && '=' !in name && (name < arg ==> arg[|name|] == '=')
    requires Names(cfg.longopts.value, true, name, i)
    ensures var a := WAnswer(pre + "W" + post, cfg.longopts.value, i, arg, name, used, behind);
            Leads(cfg, ordering, later, Parse(cfg, ordering, pre + "W" + post, later, [elem] + behind, ""), a.0, a.1,
                  behind)
  {
    hide Parse, Decode, DecodeShort, DecodeW, Characters, Nonoption, ShortElem, NameLength, Leads;
    hide Names, LongMatch, DecodeNamed, WAnswer;
    WStart(cfg, pre, post, elem, tail, arg, name, behind);
    MatchOf(cfg.longopts.value, true, name, i);
    WTextDecoded(cfg, pre + "W" + post, tail, arg, used, behind);
    WFound(pre + "W" + post, cfg.longopts.value, i, arg, name, used, behind);
    FirstAnswer(cfg, ordering, pre + "W" + post, later, elem, behind, "W" + tail);
  }

  /** And if there is no text. */
  lemma WAlone(cfg: Config, ordering: Ordering, pre: string, post: string, later: string, elem: string)
    requires ShortElem(cfg, pre + "W" + post, elem, "W") && 'W' !in pre && post != "" && post[0] == ';'
    ensures var a := Answer(Lacking(pre + "W" + post), None, Some('W' as int), None, None);
            Leads(cfg, ordering, later, Parse(cfg, ordering, pre + "W" + post, later, [elem], ""), a, 1, [])
  {
    hide Parse, Decode, DecodeShort, Characters, Nonoption, ShortElem, Leads;
    var now := pre + "W" + post;
    ShortStart(cfg, now, elem, "W", []);
    assert "W" + "" == "W" && [elem] + [] == [elem];
    WDecoded(cfg, pre, post, "", []);
    FirstAnswer(cfg, ordering, now, later, elem, [], "W");
  }

  /** Or if its name is unknown. */
  lemma WUnknown(cfg: Config, ordering: Ordering, pre: string, post: string, later: string, elem: string, tail: string,
                 arg: string, name: string, used: nat, behind: seq<string>)
    requires ShortElem(cfg, pre + "W" + post, elem, "W" + tail) && 'W' !in pre && post != "" && post[0] == ';'
    requires cfg.longopts.Some? && WText(tail, behind, arg, used)
    requires name <= arg && '=' !in name && (name < arg ==> arg[|name|] == '=')
    requires Unknown(cfg.longopts.value, name)
    ensures Leads(cfg, ordering, later, Parse(cfg, ordering, pre + "W" + post, later, [elem] + behind, ""),
                  Answer('W' as int, Some(arg), None, None, None), used, behind)
  {
    hide Parse, Decode, DecodeShort, DecodeW, Characters, Nonoption, ShortElem, NameLength, Leads;
    hide Unknown, LongMatch;
    WStart(cfg, pre, post, elem, tail, arg, name, behind);
    NoMatchOf(cfg.longopts.value, true, name);
    WTextDecoded(cfg, pre + "W" + post, tail, arg, used, behind);
    FirstAnswer(cfg, ordering, pre + "W" + post, later, elem, behind, "W" + tail);
  }

  /** Or if it is not clear; then one argument more is used up, even if there is none. */
  lemma WUnclear(cfg: Config, ordering: Ordering, pre: string, post: string, later: string, elem: string, tail: string,
                 arg: string, name: string, i: nat, j: nat, used: nat, behind: seq<string>)
    requires ShortElem(cfg, pre + "W" + post, elem, "W" + tail) && 'W' !in pre && post != "" && post[0] == ';'
    requires cfg.longopts.Some? && WText(tail, behind, arg, used)
    requires name <= arg && '=' !in name && (name < arg ==> arg[|name|] == '=')
    requires Unclear(cfg.longopts.value, true, name, i, j)
    ensures var (p, a) := (Parse(cfg, ordering, pre + "W" + post, later, [elem] + behind, ""),
                           Answer('?' as int, Some(arg), None, None, None));
            if used <= |behind| then Leads(cfg, ordering, later, p, a, used + 1, behind)
            else p == Parsed(Repeat(true, 1 + |behind|), [a], true)
  {
    hide Parse, Decode, DecodeShort, DecodeW, Characters, Nonoption, ShortElem, NameLength, Leads;
    hide Unclear, LongMatch;
    WStart(cfg, pre, post, elem, tail, arg, name, behind);
    NoMatchOf(cfg.longopts.value, true, name);
    WTextDecoded(cfg, pre + "W" + post, tail, arg, used, behind);
    FirstAnswer(cfg, ordering, pre + "W" + post, later, elem, behind, "W" + tail);
  }

  lemma WStart(cfg: Config, pre: string, post: string, elem: string, tail: string, arg: string, name: string,
               behind: seq<string>)
    requires ShortElem(cfg, pre + "W" + post, elem, "W" + tail) && 'W' !in pre && post != "" && post[0] == ';'
    requires name <= arg && '=' !in name && (name < arg ==> arg[|name|] == '=')
    ensures !Nonoption(elem) && elem != "--" && Characters(cfg, elem) == "W" + tail
    ensures Decode(cfg, pre + "W" + post, elem, "W" + tail, behind) == DecodeW(cfg, pre + "W" + post, tail, behind)
    ensures NameLength(arg) == |name| && arg[..|name|] == name
  {
    hide DecodeW, DecodeShort, ShortElem, Characters, Nonoption, NameLength;
    ShortStart(cfg, pre + "W" + post, elem, "W" + tail, behind);
    WDecoded(cfg, pre, post, tail, behind);
    NameEndsAtEquals(name, arg[|name|..]);
    assert name + arg[|name|..] == arg && arg[..|name|] == name;
  }

  // ---------------------------------------------- arguments without options

  /** The ordering that the option string asks for: '-' makes every other argument an
  answer 1, '+' or POSIXLY_CORRECT stops at the first, and otherwise they are passed. */
  lemma OtherArgument(cfg: Config, optstring: string, posixlyCorrect: bool, elem: string, behind: seq<string>)
    requires elem == "" || elem[0] != '-' || elem == "-"
    ensures var (ordering, now) := (OrderingOf(optstring, posixlyCorrect), Body(optstring));
            var p := Parse(cfg, ordering, now, optstring, [elem] + behind, "");
            if optstring != "" && optstring[0] == '-'
            then Leads(cfg, ordering, optstring, p, Answer(1, Some(elem), None, None, None), 1, behind)
            else if posixlyCorrect || (optstring != "" && optstring[0] == '+')
            then p == Parsed(Repeat(false, 1 + |behind|), [], false)
            else p == var q := Parse(cfg, ordering, now, optstring, behind, ""); q.(labels := [false] + q.labels)
  {
    var (ordering, now) := (OrderingOf(optstring, posixlyCorrect), Body(optstring));
    assert Nonoption(elem);
    var rest := [elem] + behind;
    assert rest[0] == elem && rest[1..] == behind && behind[0..] == behind && Repeat(true, 1) == [true];
    hide Parse, Decode, Characters, Nonoption;
    ParseStep(cfg, ordering, now, optstring, rest, "");
  }

  /** "--" is passed, and ends the options. */
  lemma DashesEnd(cfg: Config, ordering: Ordering, now: string, later: string, behind: seq<string>)
    ensures Parse(cfg, ordering, now, later, ["--"] + behind, "") == Parsed([true] + Repeat(false, |behind|), [], false)
  {
    var rest := ["--"] + behind;
    assert rest[0] == "--" && !Nonoption("--");
    hide Parse, Decode, Characters, Nonoption;
    ParseStep(cfg, ordering, now, later, rest, "");
  }

  /** The option string of the first call is without its flag character. */
  lemma BodyOf(flag: char, body: string)
    ensures Body([flag] + body) == if flag == '-' || flag == '+' then body else [flag] + body
    ensures Body("") == ""
  {
    assert ([flag] + body)[1..] == body;
  }
}
