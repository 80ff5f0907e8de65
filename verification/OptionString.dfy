/** The option string of getoptw.c may start with '-' or '+'.  The first call drops
this flag character, the calls after it do not: they find it in the string like any
other option character, and in front of a ':' that stands first without it.

Here is exactly which options that changes, and that a scan gives the same answers
as one with the flag dropped in every call if and only if it meets none of them. */
module OptionString {
  import opened Getopt
  import opened ScanResults
  import opened Threads

  predicate Flagged(optstring: string) {
    At(optstring, 0) == '-' || At(optstring, 0) == '+'
  }

  datatype Kind = Unknown | Plain | Required | Optional

  /** What the option string says of a short option that starts at text. */
  function KindAt(text: string): Kind {
    if text == "" || text[0] == ':' then Unknown
    else if At(text, 1) != ':' then Plain
    else if At(text, 2) == ':' then Optional
    else Required
  }

  datatype Reaction = Rejects | Colon | Alone | WithText | WithNext

  /** How a short option of this kind is answered; more is left of its argument, an
  argument follows it, colon is the option string's choice for missing ones. */
  function React(k: Kind, colon: bool, more: bool, follows: bool): Reaction {
    match k
    case Unknown => Rejects
    case Plain => Alone
    case Optional => if more then WithText else Alone
    case Required => if more then WithText else if follows then WithNext else if colon then Colon else Rejects
  }

  /** When two kinds are answered alike, the first of them without a colon: with
  more left of the argument if both take it, or both do not, and otherwise if an
  argument that is needed is there, or missing without a ':'. */
  lemma ReactAlike(k: Kind, l: Kind, colon: bool, more: bool, follows: bool)
    ensures React(k, false, more, follows) == React(l, colon, more, follows) <==>
      if more then k == l || (k in {Required, Optional} && l in {Required, Optional})
      else if k != Required && l != Required then k == Unknown <==> l == Unknown
      else if follows then k == l
      else k in {Required, Unknown} && l in {Required, Unknown} && !(l == Required && colon)
  {
  }

  /** The answer, when c was the option and text is what is left. */
  function ReplyTo(r: Reaction, c: char, text: string, behind: seq<string>): Answer {
    match r
    case Rejects => Reply('?' as int, None, Some(c as int))
    case Colon => Reply(':' as int, None, Some(c as int))
    case Alone => Reply(c as int, None, None)
    case WithText => Reply(c as int, Some(text), None)
    case WithNext => Reply(c as int, if behind == [] then None else Some(behind[0]), None)
  }

  /** How many arguments are used up. */
  function WidthOf(r: Reaction, more: bool): nat {
    if r == WithNext then 2 else if more && (r == Rejects || r == Alone) then 0 else 1
  }

  lemma DecodeReacts(cfg: Config, optstring: string, next: string, behind: seq<string>)
    requires next != "" && next[0] != 'W'
    ensures var (text, d) := (next[1..], DecodeShort(cfg, optstring, next, behind));
            var kind := if next[0] == ':' then Unknown else KindAt(StrChr(optstring, next[0]));
            var r := React(kind, At(optstring, 0) == ':', text != "", behind != []);
            && d.answer == ReplyTo(r, next[0], text, behind) && d.width == WidthOf(r, text != "")
            && d.next == (if d.width == 0 then text else "")
  {
    StrChrFinds(optstring, next[0]);
  }

  /** The flag character in front changes only where that character is found. */
  lemma FlagInFront(f: char, body: string, c: char)
    ensures StrChr([f] + body, c) == if c == f then [f] + body else StrChr(body, c)
  {
    assert ([f] + body)[1..] == body;
  }

  /** Does the decoding come to the option string with the first of the characters
  next, and is that the flag character? */
  ghost predicate Consulted(cfg: Config, f: char, body: string, elem: string, next: string)
    requires next != ""
  {
    && next[0] == f
    && (TriesLong(cfg, [f] + body, elem) ==>
          && cfg.longOnly && At(elem, 1) != '-'
          && LongMatch(cfg.longopts.value, next[..NameLength(next)], cfg.longOnly) == NoMatch)
  }

  /** Does it make a difference for this option that the flag character stands in
  front of the body?  If the flag character is looked up as a short option: when it
  is declared otherwise there, or only there and long options come first.  If not:
  when an argument is missing and the body asks for ':'. */
  ghost predicate Affected(cfg: Config, f: char, body: string, elem: string, next: string, behind: seq<string>)
    requires next != ""
  {
    var (colon, more) := (At(body, 0) == ':', |next| > 1);
    if !Consulted(cfg, f, body, elem, next) then colon && Wants(cfg, body, elem, next, behind)
    else
      || (f !in body && TriesLong(cfg, body, elem))
      || React(KindAt([f] + body), false, more, behind != [])
         != React(KindAt(StrChr(body, f)), colon, more, behind != [])
  }

  /** Only for the flag character alone does the body start a search among the long
  options that the whole string does not. */
  ghost predicate Aligned(cfg: Config, f: char, body: string, elem: string, next: string) {
    next != "" && TriesLong(cfg, body, elem) && !TriesLong(cfg, [f] + body, elem) ==> next[0] == f
  }

  lemma TriesLongFlag(cfg: Config, f: char, body: string, elem: string)
    ensures TriesLong(cfg, [f] + body, elem) ==> TriesLong(cfg, body, elem)
    ensures TriesLong(cfg, body, elem) && !TriesLong(cfg, [f] + body, elem) ==>
      cfg.longOnly && At(elem, 1) == f && f != '-' && f !in body
  {
    FlagInFront(f, body, At(elem, 1));
    StrChrFinds(body, At(elem, 1));
  }

  /** An argument is aligned when its decoding starts. */
  lemma AlignedStart(cfg: Config, f: char, body: string, elem: string)
    requires !Nonoption(elem) && elem != "--"
    ensures Aligned(cfg, f, body, elem, Characters(cfg, elem))
  {
    TriesLongFlag(cfg, f, body, elem);
  }

  /** And as long as it lasts. */
  lemma AlignedOn(cfg: Config, f: char, body: string, elem: string, next: string, behind: seq<string>)
    requires next != "" && Aligned(cfg, f, body, elem, next)
    ensures Aligned(cfg, f, body, elem, Decode(cfg, body, elem, next, behind).next)
  {
    TriesLongFlag(cfg, f, body, elem);
    StrChrFinds(body, next[0]);
  }

  /** The short option f itself. */
  lemma ShortFlag(cfg: Config, f: char, body: string, next: string, behind: seq<string>)
    requires next != "" && next[0] == f && Flagged([f])
    ensures var (colon, more) := (At(body, 0) == ':', |next| > 1);
            var same := React(KindAt([f] + body), false, more, behind != [])
                     == React(KindAt(StrChr(body, f)), colon, more, behind != []);
            var (whole, bare) := (DecodeShort(cfg, [f] + body, next, behind), DecodeShort(cfg, body, next, behind));
            (whole.answer == bare.answer <==> same) && (same ==> whole == bare)
  {
    hide DecodeShort;
    FlagInFront(f, body, f);
    DecodeReacts(cfg, [f] + body, next, behind);
    DecodeReacts(cfg, body, next, behind);
  }

  /** An option -W foo. */
  lemma WOther(cfg: Config, f: char, body: string, text: string, behind: seq<string>)
    requires Flagged([f])
    ensures var starved := At(body, 0) == ':'
              && DecodeW(cfg, body, text, behind + [""]).width != DecodeW(cfg, body, text, behind).width;
            var (whole, bare) := (DecodeW(cfg, [f] + body, text, behind), DecodeW(cfg, body, text, behind));
            (whole.answer == bare.answer <==> !starved) && (!starved ==> whole == bare)
  {
    hide LongMatch;
  }

  /** Any other short option. */
  lemma ShortOther(cfg: Config, f: char, body: string, next: string, behind: seq<string>)
    requires next != "" && next[0] != f && Flagged([f])
    ensures var starved := At(body, 0) == ':'
              && DecodeShort(cfg, body, next, behind + [""]).width != DecodeShort(cfg, body, next, behind).width;
            var (whole, bare) := (DecodeShort(cfg, [f] + body, next, behind), DecodeShort(cfg, body, next, behind));
            (whole.answer == bare.answer <==> !starved) && (!starved ==> whole == bare)
  {
    hide DecodeW;
    FlagInFront(f, body, next[0]);
    hide StrChr;
    WOther(cfg, f, body, next[1..], behind);
  }

  /** A long option from the table. */
  lemma FoundFlag(f: char, body: string, o: LongOption, index: nat, text: Option<string>, behind: seq<string>)
    requires Flagged([f])
    ensures var starved := At(body, 0) == ':'
              && DecodeFound(body, o, index, text, behind + [""]).width
                 != DecodeFound(body, o, index, text, behind).width;
            var whole := DecodeFound([f] + body, o, index, text, behind);
            var bare := DecodeFound(body, o, index, text, behind);
            (whole.answer == bare.answer <==> !starved) && (!starved ==> whole == bare)
  {
  }

  /** A short option is named in its answer. */
  lemma ShortReplies(cfg: Config, optstring: string, next: string, behind: seq<string>)
    requires next != "" && Flagged([next[0]])
    ensures var a := DecodeShort(cfg, optstring, next, behind).answer;
            && a.longind == None && a.stored == None && a.optopt != Some(0)
            && (a.optopt == None ==> a.ret == next[0] as int)
  {
    DecodeReacts(cfg, optstring, next, behind);
  }

  /** The flag character alone as an argument, when only the body sends it to the
  long options: the answers always differ. */
  lemma LookupDiffers(cfg: Config, f: char, body: string, elem: string, next: string, behind: seq<string>)
    requires next != "" && next[0] == f && Flagged([f]) && f !in body
    requires TriesLong(cfg, body, elem) && !TriesLong(cfg, [f] + body, elem)
    ensures Decode(cfg, [f] + body, elem, next, behind).answer != Decode(cfg, body, elem, next, behind).answer
  {
    hide DecodeShort, TriesLong;
    FlagInFront(f, body, f);
    DecodeReacts(cfg, [f] + body, next, behind);
    StrChrFinds(body, f);
    hide StrChr;
    TriesLongFlag(cfg, f, body, elem);
  }

  lemma ShortAffected(cfg: Config, f: char, body: string, elem: string, next: string, behind: seq<string>)
    requires next != "" && Flagged([f]) && !TriesLong(cfg, body, elem) && !TriesLong(cfg, [f] + body, elem)
    ensures var (whole, bare) := (Decode(cfg, [f] + body, elem, next, behind), Decode(cfg, body, elem, next, behind));
            && (whole.answer == bare.answer <==> !Affected(cfg, f, body, elem, next, behind))
            && (whole.answer == bare.answer ==> whole == bare)
  {
    hide DecodeShort, DecodeFound, LongMatch, TriesLong, React, KindAt, StrChr;
    if next[0] == f {
      ShortFlag(cfg, f, body, next, behind);
    } else {
      ShortOther(cfg, f, body, next, behind);
    }
  }

  lemma LongAffected(cfg: Config, f: char, body: string, elem: string, next: string, behind: seq<string>)
    requires next != "" && Flagged([f]) && cfg.longopts.Some? && TriesLong(cfg, body, elem)
    requires TriesLong(cfg, [f] + body, elem)
    ensures var (whole, bare) := (Decode(cfg, [f] + body, elem, next, behind), Decode(cfg, body, elem, next, behind));
            && (whole.answer == bare.answer <==> !Affected(cfg, f, body, elem, next, behind))
            && (whole.answer == bare.answer ==> whole == bare)
  {
    hide DecodeShort, DecodeFound, TriesLong, React, KindAt, StrChr;
    FlagInFront(f, body, next[0]);
    StrChrFinds(body, next[0]);
    var n := NameLength(next);
    match LongMatch(cfg.longopts.value, next[..n], cfg.longOnly) {
      case Ambiguous =>
      case Found(i) =>
        var text := if n < |next| then Some(next[n + 1..]) else None;
        FoundFlag(f, body, cfg.longopts.value[i], i, text, behind);
      case NoMatch =>
        if next[0] == f {
          ShortFlag(cfg, f, body, next, behind);
          ShortReplies(cfg, [f] + body, next, behind);
        } else {
          ShortOther(cfg, f, body, next, behind);
        }
    }
  }

  /** The two decodings differ exactly for the affected options. */
  lemma DecodeAffected(cfg: Config, f: char, body: string, elem: string, next: string, behind: seq<string>)
    requires next != "" && Flagged([f]) && Aligned(cfg, f, body, elem, next)
    ensures var (whole, bare) := (Decode(cfg, [f] + body, elem, next, behind), Decode(cfg, body, elem, next, behind));
            && (whole.answer == bare.answer <==> !Affected(cfg, f, body, elem, next, behind))
            && (whole.answer == bare.answer ==> whole == bare)
  {
    hide Decode, LongMatch, React, KindAt, StrChr;
    TriesLongFlag(cfg, f, body, elem);
    hide TriesLong;
    if !TriesLong(cfg, body, elem) {
      ShortAffected(cfg, f, body, elem, next, behind);
    } else if TriesLong(cfg, [f] + body, elem) {
      LongAffected(cfg, f, body, elem, next, behind);
    } else {
      LookupDiffers(cfg, f, body, elem, next, behind);
    }
  }

  /** Does a scan with the body meet an affected option? */
  ghost predicate MeetsAffected(cfg: Config, ordering: Ordering, f: char, body: string, rest: seq<string>, next: string)
    decreases |rest|, if rest == [] then 0 else if next == "" then |rest[0]| + 1 else |next|
  {
    if rest == [] then false
    else if next != "" then
      var d := Decode(cfg, body, rest[0], next, rest[1..]);
      || Affected(cfg, f, body, rest[0], next, rest[1..])
      || (d.width <= |rest| && MeetsAffected(cfg, ordering, f, body, rest[d.width..], d.next))
    else if Nonoption(rest[0]) then ordering != RequireOrder && MeetsAffected(cfg, ordering, f, body, rest[1..], "")
    else rest[0] != "--" && MeetsAffected(cfg, ordering, f, body, rest, Characters(cfg, rest[0]))
  }

  /** The same, of the calls after the first. */
  ghost predicate MeetsAffectedLater(cfg: Config, ordering: Ordering, f: char, body: string, rest: seq<string>,
                                     next: string)
    decreases |rest|, if rest == [] then 0 else if next == "" then |rest[0]| + 1 else |next|
  {
    if rest == [] then false
    else if next != "" then
      var d := Decode(cfg, body, rest[0], next, rest[1..]);
      d.width <= |rest| && MeetsAffected(cfg, ordering, f, body, rest[d.width..], d.next)
    else if Nonoption(rest[0]) then
      if ordering == RequireOrder then false
      else if ordering == Permute then MeetsAffectedLater(cfg, ordering, f, body, rest[1..], "")
      else MeetsAffected(cfg, ordering, f, body, rest[1..], "")
    else rest[0] != "--" && MeetsAffectedLater(cfg, ordering, f, body, rest, Characters(cfg, rest[0]))
  }

  /** The answers agree exactly if same; and then everything does. */
  ghost predicate Agree(p: Parsed, q: Parsed, same: bool) {
    (p.answers == q.answers <==> same) && (same ==> p == q)
  }

  /** One more answer and its labels in front. */
  lemma AnswerInFront(a: Answer, v: seq<bool>, p: Parsed, q: Parsed, same: bool)
    requires Agree(p, q, same)
    ensures Agree(Parsed(v + p.labels, [a] + p.answers, p.overrun), Parsed(v + q.labels, [a] + q.answers, q.overrun),
                  same)
  {
    SameHead(a, p.answers, q.answers);
  }

  lemma AlignedAfter(cfg: Config, f: char, body: string, rest: seq<string>, next: string)
    requires rest != [] && next != "" && Aligned(cfg, f, body, rest[0], next)
    ensures var d := Decode(cfg, body, rest[0], next, rest[1..]);
            d.width < |rest| ==> Aligned(cfg, f, body, rest[d.width..][0], d.next)
  {
    hide Decode;
    AlignedOn(cfg, f, body, rest[0], next, rest[1..]);
  }

  /** One option, decoded with the whole string and with the body alone. */
  lemma OptionAgrees(cfg: Config, ordering: Ordering, f: char, body: string, rest: seq<string>, next: string)
    requires rest != [] && next != "" && Flagged([f]) && Aligned(cfg, f, body, rest[0], next)
    requires var (s, d) := ([f] + body, Decode(cfg, body, rest[0], next, rest[1..]));
             d.width <= |rest| ==>
               Agree(Parse(cfg, ordering, s, s, rest[d.width..], d.next),
                     Parse(cfg, ordering, body, body, rest[d.width..], d.next),
                     !MeetsAffected(cfg, ordering, f, body, rest[d.width..], d.next))
    ensures var s := [f] + body;
            Agree(Parse(cfg, ordering, s, s, rest, next), Parse(cfg, ordering, body, body, rest, next),
                  !MeetsAffected(cfg, ordering, f, body, rest, next))
  {
    var s, d := [f] + body, Decode(cfg, body, rest[0], next, rest[1..]);
    var e := Decode(cfg, s, rest[0], next, rest[1..]);
    DecodeAffected(cfg, f, body, rest[0], next, rest[1..]);
    hide Parse, Decode, Affected;
    ParseStep(cfg, ordering, s, s, rest, next);
    ParseStep(cfg, ordering, body, body, rest, next);
    if e != d || d.width > |rest| {
      assert Parse(cfg, ordering, s, s, rest, next).answers[0] == e.answer;
      assert Parse(cfg, ordering, body, body, rest, next).answers[0] == d.answer;
    } else {
      AnswerInFront(d.answer, Repeat(true, d.width), Parse(cfg, ordering, s, s, rest[d.width..], d.next),
                    Parse(cfg, ordering, body, body, rest[d.width..], d.next),
                    !MeetsAffected(cfg, ordering, f, body, rest[d.width..], d.next));
    }
  }

  /** Every call with the whole string, against every call with the body. */
  lemma {:induction false} EveryCallAgrees(cfg: Config, ordering: Ordering, f: char, body: string,
                                           rest: seq<string>, next: string)
    requires Flagged([f]) && (rest != [] ==> Aligned(cfg, f, body, rest[0], next))
    ensures var s := [f] + body;
            Agree(Parse(cfg, ordering, s, s, rest, next), Parse(cfg, ordering, body, body, rest, next),
                  !MeetsAffected(cfg, ordering, f, body, rest, next))
    decreases |rest|, if rest == [] then 0 else if next == "" then |rest[0]| + 1 else |next|
  {
    hide Parse, Decode, Nonoption, Characters, Affected, Flagged;
    var s := [f] + body;
    ParseStep(cfg, ordering, s, s, rest, next);
    ParseStep(cfg, ordering, body, body, rest, next);
    if rest == [] {
    } else if next != "" {
      var d := Decode(cfg, body, rest[0], next, rest[1..]);
      AlignedAfter(cfg, f, body, rest, next);
      if d.width <= |rest| { EveryCallAgrees(cfg, ordering, f, body, rest[d.width..], d.next); }
      OptionAgrees(cfg, ordering, f, body, rest, next);
    } else if Nonoption(rest[0]) {
      if ordering != RequireOrder {
        EveryCallAgrees(cfg, ordering, f, body, rest[1..], "");
        if ordering == ReturnInOrder {
          var a := Reply(1, Some(rest[0]), None);
          AnswerInFront(a, [true], Parse(cfg, ordering, s, s, rest[1..], ""),
                        Parse(cfg, ordering, body, body, rest[1..], ""),
                        !MeetsAffected(cfg, ordering, f, body, rest[1..], ""));
        }
      }
    } else if rest[0] != "--" {
      AlignedStart(cfg, f, body, rest[0]);
      EveryCallAgrees(cfg, ordering, f, body, rest, Characters(cfg, rest[0]));
    }
  }

  /** The first call with the body in both, the others with the whole string. */
  lemma {:induction false} LaterCallsAgree(cfg: Config, ordering: Ordering, f: char, body: string,
                                           rest: seq<string>, next: string)
    requires Flagged([f]) && (rest != [] ==> Aligned(cfg, f, body, rest[0], next))
    ensures Agree(Parse(cfg, ordering, body, [f] + body, rest, next), Parse(cfg, ordering, body, body, rest, next),
                  !MeetsAffectedLater(cfg, ordering, f, body, rest, next))
    decreases |rest|, if rest == [] then 0 else if next == "" then |rest[0]| + 1 else |next|
  {
    hide Parse, Decode, Nonoption, Characters, Affected, Flagged, MeetsAffected;
    var s := [f] + body;
    ParseStep(cfg, ordering, body, s, rest, next);
    ParseStep(cfg, ordering, body, body, rest, next);
    if rest == [] {
    } else if next != "" {
      var d := Decode(cfg, body, rest[0], next, rest[1..]);
      AlignedAfter(cfg, f, body, rest, next);
      if d.width <= |rest| {
        EveryCallAgrees(cfg, ordering, f, body, rest[d.width..], d.next);
        AnswerInFront(d.answer, Repeat(true, d.width), Parse(cfg, ordering, s, s, rest[d.width..], d.next),
                      Parse(cfg, ordering, body, body, rest[d.width..], d.next),
                      !MeetsAffected(cfg, ordering, f, body, rest[d.width..], d.next));
      }
    } else if Nonoption(rest[0]) {
      if ordering == Permute {
        LaterCallsAgree(cfg, ordering, f, body, rest[1..], "");
      } else if ordering == ReturnInOrder {
        EveryCallAgrees(cfg, ordering, f, body, rest[1..], "");
        var a := Reply(1, Some(rest[0]), None);
        AnswerInFront(a, [true], Parse(cfg, ordering, s, s, rest[1..], ""),
                      Parse(cfg, ordering, body, body, rest[1..], ""),
                      !MeetsAffected(cfg, ordering, f, body, rest[1..], ""));
      }
    } else if rest[0] != "--" {
      AlignedStart(cfg, f, body, rest[0]);
      LaterCallsAgree(cfg, ordering, f, body, rest, Characters(cfg, rest[0]));
    }
  }

  /** A scan is the documented one, with a single option string, exactly if no call
  after the first meets an affected option; always so without a flag character. */
  lemma OneStringSuffices(cfg: Config, ordering: Ordering, optstring: string, rest: seq<string>)
    ensures var (body, p) := (Body(optstring), Parse(cfg, ordering, Body(optstring), optstring, rest, ""));
            var documented := Parse(cfg, ordering, body, body, rest, "");
            var affected := Flagged(optstring) && MeetsAffectedLater(cfg, ordering, optstring[0], body, rest, "");
            (p.answers == documented.answers <==> !affected) && (!affected ==> p == documented)
  {
    if Flagged(optstring) {
      assert [optstring[0]] + Body(optstring) == optstring;
      LaterCallsAgree(cfg, ordering, optstring[0], Body(optstring), rest, "");
    }
  }

  /** Both ways of being affected: with "+:ab:", "-a -b" reports the missing argument
  as '?' where the string asks for ':', and "-a -+" is answered by an option '+'. */
  lemma FlagExample()
    ensures var (cfg, rest) := (Config(None, false), ["-a", "-b"]);
            && Body("+:ab:") == ":ab:" && OrderingOf("+:ab:", false) == RequireOrder
            && Parse(cfg, RequireOrder, ":ab:", "+:ab:", rest, "").answers
               == [Reply('a' as int, None, None), Reply('?' as int, None, Some('b' as int))]
            && Parse(cfg, RequireOrder, ":ab:", ":ab:", rest, "").answers
               == [Reply('a' as int, None, None), Reply(':' as int, None, Some('b' as int))]
    ensures var (cfg, rest) := (Config(None, false), ["-a", "-+"]);
            && Parse(cfg, RequireOrder, "ab", "+ab", rest, "").answers
               == [Reply('a' as int, None, None), Reply('+' as int, None, None)]
            && Parse(cfg, RequireOrder, "ab", "ab", rest, "").answers
               == [Reply('a' as int, None, None), Reply('?' as int, None, Some('+' as int))]
  {
    assert "-" + "b" == "-b" && "-" + "+" == "-+";
    hide DecodeShort, Parse, StrChr, Body, OrderingOf;
    WithoutArguments(Config(None, false));
    TwoOptions(":ab:", "+:ab:", "b");
    TwoOptions(":ab:", ":ab:", "b");
    TwoOptions("ab", "+ab", "+");
    TwoOptions("ab", "ab", "+");
  }

  lemma WithoutArguments(cfg: Config)
    ensures Body("+:ab:") == ":ab:" && OrderingOf("+:ab:", false) == RequireOrder
    ensures At(StrChr(":ab:", 'a'), 1) == 'b' && At(StrChr("ab", 'a'), 1) == 'b'
    ensures DecodeShort(cfg, ":ab:", "a", ["-b"]).answer == Reply('a' as int, None, None)
    ensures DecodeShort(cfg, "ab", "a", ["-+"]).answer == Reply('a' as int, None, None)
    ensures DecodeShort(cfg, "+:ab:", "b", []).answer == Reply('?' as int, None, Some('b' as int))
    ensures DecodeShort(cfg, ":ab:", "b", []).answer == Reply(':' as int, None, Some('b' as int))
    ensures DecodeShort(cfg, "+ab", "+", []).answer == Reply('+' as int, None, None)
    ensures DecodeShort(cfg, "ab", "+", []).answer == Reply('?' as int, None, Some('+' as int))
  {
    assert "+:ab:"[1..] == ":ab:" && ":ab:"[1..] == "ab:" && "ab:"[1..] == "b:";
    assert "+ab"[1..] == "ab" && "ab"[1..] == "b" && "b"[1..] == "";
    assert StrChr("ab:", 'b') == "b:" && StrChr(":ab:", 'b') == "b:" && StrChr("b", '+') == "";
  }

  /** The arguments "-a" and another, both without a long option. */
  lemma TwoOptions(now: string, later: string, letter: string)
    requires |letter| == 1 && letter[0] !in "-\0W" && At(StrChr(now, 'a'), 1) != ':'
    ensures var cfg := Config(None, false);
            Parse(cfg, RequireOrder, now, later, ["-a", "-" + letter], "").answers
            == [DecodeShort(cfg, now, "a", ["-" + letter]).answer, DecodeShort(cfg, later, letter, []).answer]
  {
    var cfg, rest := Config(None, false), ["-a", "-" + letter];
    assert letter[0] != '-' && letter[0] != '\0';
    assert At("-" + letter, 0) == '-' && At("-" + letter, 1) == letter[0] && ("-" + letter)[1..] == letter;
    assert ("-" + letter)[1] != "--"[1];
    assert Characters(cfg, "-a") == "a" && Characters(cfg, "-" + letter) == letter;
    assert rest[1..] == ["-" + letter] && rest[1..][1..] == [];
    ShortAlone(cfg, now, "a", ["-" + letter]);
    ShortAlone(cfg, later, letter, []);
    assert Decode(cfg, now, "-a", "a", rest[1..]) == DecodeShort(cfg, now, "a", ["-" + letter]);
    assert Decode(cfg, later, "-" + letter, letter, []) == DecodeShort(cfg, later, letter, []);
    hide DecodeShort, StrChr, Decode, Parse, Characters;
    ParseStep(cfg, RequireOrder, now, later, rest, "");
    ParseStep(cfg, RequireOrder, now, later, rest, "a");
    ParseStep(cfg, RequireOrder, later, later, rest[1..], "");
    ParseStep(cfg, RequireOrder, later, later, rest[1..], letter);
    ParseStep(cfg, RequireOrder, later, later, [], "");
  }

  lemma ShortAlone(cfg: Config, optstring: string, letter: string, behind: seq<string>)
    requires |letter| == 1 && letter[0] != 'W'
    ensures var d := DecodeShort(cfg, optstring, letter, behind);
            d.next == "" && (behind == [] || At(StrChr(optstring, letter[0]), 1) != ':' ==> d.width == 1)
  {
    StrChrFinds(optstring, letter[0]);
  }
}
