/** What a scan of the arguments comes to: the stable partition it leaves, where
it runs past the end of the arguments, which arguments stand in front in the end,
and when a second scan gives the same answers.  All of it is about the reference
parser, which the scanner's methods are proved to follow. */
module ScanResults {
  import opened Getopt
  import opened Threads

  /** The run leaves a permutation: all options with their arguments in front, in
  their order, all other arguments behind, in theirs. */
  lemma StablePartition(cfg: Config, ordering: Ordering, now: string, later: string, prefix: seq<string>,
                        rest: seq<string>)
    ensures var p := Parse(cfg, ordering, now, later, rest, "");
            var o := OutcomeOf(cfg, ordering, now, later, prefix, [], rest, "");
            && multiset(o.options + o.others) == multiset(prefix + rest)
            && o.options == prefix + Pick(rest, p.labels, true) && o.others == Pick(rest, p.labels, false)
            && |prefix| <= |o.options| <= |prefix + rest|
  {
    hide Parse, Pick;
    var labels := Parse(cfg, ordering, now, later, rest, "").labels;
    PickLengths(rest, labels);
    assert prefix + [] == prefix && [] + Pick(rest, labels, false) == Pick(rest, labels, false);
    assert var o := OutcomeOf(cfg, ordering, now, later, prefix, [], rest, "");
           o.options == prefix + Pick(rest, labels, true) && o.others == Pick(rest, labels, false);
    hide OutcomeOf;
    OutcomePermutes(cfg, ordering, now, later, prefix, [], rest, "");
  }

  /** Does the scan come to an option -W that overruns? */
  ghost predicate MeetsOverrun(cfg: Config, ordering: Ordering, now: string, later: string, rest: seq<string>,
                               next: string)
    decreases |rest|, if rest == [] then 0 else if next == "" then |rest[0]| + 1 else |next|
  {
    if rest == [] then false
    else if next != "" then
      var d := Decode(cfg, now, rest[0], next, rest[1..]);
      || Overruns(cfg, now, rest[0], next, rest[1..])
      || (d.width <= |rest| && MeetsOverrun(cfg, ordering, later, later, rest[d.width..], d.next))
    else if Nonoption(rest[0]) then
      && ordering != RequireOrder
      && MeetsOverrun(cfg, ordering, if ordering == Permute then now else later, later, rest[1..], "")
    else rest[0] != "--" && MeetsOverrun(cfg, ordering, now, later, rest, Characters(cfg, rest[0]))
  }

  /** optind passes the number of arguments exactly there. */
  lemma {:induction false} OverrunExactly(cfg: Config, ordering: Ordering, now: string, later: string,
                                          rest: seq<string>,
                                          next: string)
    ensures Parse(cfg, ordering, now, later, rest, next).overrun <==>
      MeetsOverrun(cfg, ordering, now, later, rest, next)
    decreases |rest|, if rest == [] then 0 else if next == "" then |rest[0]| + 1 else |next|
  {
    hide Parse, Decode, Nonoption, Characters, Overruns;
    ParseStep(cfg, ordering, now, later, rest, next);
    if rest == [] {
    } else if next != "" {
      var d := Decode(cfg, now, rest[0], next, rest[1..]);
      OverrunIff(cfg, now, rest[0], next, rest[1..]);
      if d.width <= |rest| { OverrunExactly(cfg, ordering, later, later, rest[d.width..], d.next); }
    } else if Nonoption(rest[0]) {
      if ordering != RequireOrder {
        OverrunExactly(cfg, ordering, if ordering == Permute then now else later, later, rest[1..], "");
      }
    } else if rest[0] != "--" {
      OverrunExactly(cfg, ordering, now, later, rest, Characters(cfg, rest[0]));
    }
  }

  /** With two long options that "foo" abbreviates, -Wfoo overruns as the last
  argument, and otherwise uses up the argument behind it, too. */
  lemma OverrunExample()
    ensures var cfg := Config(Some([LongOption("foo1", 0, None, 1), LongOption("foo2", 0, None, 2)]), false);
            var answers := [Reply('?' as int, Some("foo"), None)];
            && Parse(cfg, Permute, "W;", "W;", ["-Wfoo"], "") == Parsed([true], answers, true)
            && Parse(cfg, Permute, "W;", "W;", ["-Wfoo", "x"], "") == Parsed([true, true], answers, false)
  {
    var cfg := Config(Some([LongOption("foo1", 0, None, 1), LongOption("foo2", 0, None, 2)]), false);
    var rest := ["-Wfoo", "x"];
    ExampleDecodes(cfg, []);
    ExampleDecodes(cfg, ["x"]);
    assert ["-Wfoo"][1..] == [] && rest[1..] == ["x"] && rest[2..] == [];
    hide Parse, Decode, Characters, Nonoption;
    ParseStep(cfg, Permute, "W;", "W;", ["-Wfoo"], "");
    ParseStep(cfg, Permute, "W;", "W;", ["-Wfoo"], "Wfoo");
    ParseStep(cfg, Permute, "W;", "W;", rest, "");
    ParseStep(cfg, Permute, "W;", "W;", rest, "Wfoo");
    ParseStep(cfg, Permute, "W;", "W;", [], "");
    assert Repeat(true, 1) == [true] && Repeat(true, 2) + [] == [true, true];
  }

  lemma ExampleDecodes(cfg: Config, behind: seq<string>)
    requires cfg == Config(Some([LongOption("foo1", 0, None, 1), LongOption("foo2", 0, None, 2)]), false)
    ensures !Nonoption("-Wfoo") && Characters(cfg, "-Wfoo") == "Wfoo"
    ensures Decode(cfg, "W;", "-Wfoo", "Wfoo", behind) == Decoded(Reply('?' as int, Some("foo"), None), 2, "")
  {
    var longopts := cfg.longopts.value;
    assert NameLength("foo") == 3 by { assert "foo"[1..] == "oo" && "oo"[1..] == "o"; }
    assert "foo"[..3] == "foo" && "Wfoo"[1..] == "foo" && "-Wfoo"[1..] == "Wfoo";
    assert longopts[0].name == "foo1" && longopts[1].name == "foo2";
    FirstHitUnique(longopts, "foo", true, 2);
    FirstHitUnique(longopts, "foo", false, 0);
    assert Clashes(longopts, "foo", true, 0, 1);
    assert LongMatch(longopts, "foo", true) == Ambiguous;
    assert StrChr("W;", 'W') == "W;";
    hide LongMatch, StrChr;
  }

  /** A "--" that ends the options stands in front of i. */
  ghost predicate BehindDashes(rest: seq<string>, labels: seq<bool>, i: nat)
    requires i <= |rest| == |labels|
  {
    exists j :: 0 <= j < i && rest[j] == "--" && labels[j]
  }

  lemma BehindDashesShift(rest: seq<string>, w: nat, front: seq<bool>, labels: seq<bool>, i: nat)
    requires w <= i <= |rest| && |front| == w && |labels| == |rest| - w && BehindDashes(rest[w..], labels, i - w)
    ensures BehindDashes(rest, front + labels, i)
  {
    var j :| 0 <= j < i - w && rest[w..][j] == "--" && labels[j];
    assert rest[w + j] == "--" && (front + labels)[w + j];
  }

  /** Only arguments without option syntax are skipped, except behind "--". */
  lemma {:induction false} SkippedAreNonoptions(cfg: Config, ordering: Ordering, now: string, later: string,
                                                rest: seq<string>, next: string, i: nat)
    requires i < |rest| && !Parse(cfg, ordering, now, later, rest, next).labels[i] && ordering != RequireOrder
    ensures Nonoption(rest[i]) || BehindDashes(rest, Parse(cfg, ordering, now, later, rest, next).labels, i)
    decreases |rest|, if rest == [] then 0 else if next == "" then |rest[0]| + 1 else |next|
  {
    hide Parse, Decode, Characters, Nonoption, BehindDashes;
    ParseStep(cfg, ordering, now, later, rest, next);
    if next != "" {
      var d := Decode(cfg, now, rest[0], next, rest[1..]);
      assert d.width <= i;
      var p := Parse(cfg, ordering, later, later, rest[d.width..], d.next);
      SkippedAreNonoptions(cfg, ordering, later, later, rest[d.width..], d.next, i - d.width);
      if !Nonoption(rest[i]) { BehindDashesShift(rest, d.width, Repeat(true, d.width), p.labels, i); }
    } else if Nonoption(rest[0]) {
      if i > 0 {
        var l := if ordering == Permute then now else later;
        var p := Parse(cfg, ordering, l, later, rest[1..], "");
        SkippedAreNonoptions(cfg, ordering, l, later, rest[1..], "", i - 1);
        if !Nonoption(rest[i]) { BehindDashesShift(rest, 1, [ordering != Permute], p.labels, i); }
      }
    } else if rest[0] == "--" {
      DashesInFront(rest, [true] + Repeat(false, |rest| - 1), i);
    } else {
      SkippedAreNonoptions(cfg, ordering, now, later, rest, Characters(cfg, rest[0]), i);
    }
  }

  lemma DashesInFront(rest: seq<string>, labels: seq<bool>, i: nat)
    requires 0 < i <= |rest| == |labels| && rest[0] == "--" && labels[0]
    ensures BehindDashes(rest, labels, i)
  {
  }

  /** The options in front, then the others. */
  ghost function Partition<T>(s: seq<T>, labels: seq<bool>): seq<T>
    requires |labels| == |s|
  {
    Pick(s, labels, true) + Pick(s, labels, false)
  }

  lemma PartitionStep<T>(s: seq<T>, w: nat, labels: seq<bool>)
    requires w <= |s| && |labels| == |s| - w
    ensures Partition(s, Repeat(true, w) + labels) == s[..w] + Partition(s[w..], labels)
    ensures Partition(s, Repeat(false, |s|)) == s
  {
    PickRun(s, w, labels, true);
    PickAll(s, Repeat(false, |s|), false);
  }

  lemma PartitionAll<T>(s: seq<T>)
    ensures Partition(s, Repeat(true, |s|)) == s
  {
    PickAll(s, Repeat(true, |s|), true);
  }

  /** Without PERMUTE nothing moves. */
  lemma {:induction false} OrderKept(cfg: Config, ordering: Ordering, now: string, later: string, rest: seq<string>,
                                     next: string)
    requires ordering != Permute
    ensures Partition(rest, Parse(cfg, ordering, now, later, rest, next).labels) == rest
    decreases |rest|, if rest == [] then 0 else if next == "" then |rest[0]| + 1 else |next|
  {
    hide Parse, Decode, Nonoption, Characters, Pick, Partition;
    ParseStep(cfg, ordering, now, later, rest, next);
    if rest == [] {
      PartitionStep(rest, 0, []);
      assert Repeat(false, 0) == [];
    } else if next != "" {
      var d := Decode(cfg, now, rest[0], next, rest[1..]);
      if d.width > |rest| {
        PartitionAll(rest);
      } else {
        OrderKept(cfg, ordering, later, later, rest[d.width..], d.next);
        PartitionStep(rest, d.width, Parse(cfg, ordering, later, later, rest[d.width..], d.next).labels);
      }
    } else if Nonoption(rest[0]) && ordering == RequireOrder {
      PartitionStep(rest, 0, Repeat(false, |rest|));
    } else if Nonoption(rest[0]) {
      OrderKept(cfg, ordering, later, later, rest[1..], "");
      PartitionStep(rest, 1, Parse(cfg, ordering, later, later, rest[1..], "").labels);
      assert Repeat(true, 1) == [true];
    } else if rest[0] == "--" {
      PartitionStep(rest, 1, Repeat(false, |rest| - 1));
      PartitionStep(rest[1..], 0, Repeat(false, |rest| - 1));
      assert Repeat(true, 1) == [true];
    } else {
      OrderKept(cfg, ordering, now, later, rest, Characters(cfg, rest[0]));
    }
  }

  /** Would the option use one argument more than stand behind it? */
  ghost predicate Wants(cfg: Config, optstring: string, elem: string, next: string, behind: seq<string>)
    requires next != ""
  {
    Decode(cfg, optstring, elem, next, behind + [""]).width != Decode(cfg, optstring, elem, next, behind).width
  }

  /** An option -W has no long option behind it, or one that has to get an argument,
  has none attached, and is the last argument. */
  ghost predicate StarvedW(cfg: Config, text: string, behind: seq<string>) {
    || (text == "" && behind == [])
    || (|behind| == (if text == "" then 1 else 0)
        && var arg := if text == "" then behind[0] else text;
           var m := LongMatch(Table(cfg), arg[..NameLength(arg)], true);
           m.Found? && NameLength(arg) == |arg| && Table(cfg)[m.index].hasArg == 1)
  }

  /** A short option has to get an argument, has none attached, and none is behind. */
  ghost predicate StarvedShort(cfg: Config, optstring: string, next: string, behind: seq<string>)
    requires next != ""
  {
    var temp := StrChr(optstring, next[0]);
    && temp != "" && next[0] != ':'
    && if next[0] == 'W' && At(temp, 1) == ';' then StarvedW(cfg, next[1..], behind)
       else |next| == 1 && behind == [] && At(temp, 1) == ':' && At(temp, 2) != ':'
  }

  /** The same of any option. */
  ghost predicate Starved(cfg: Config, optstring: string, elem: string, next: string, behind: seq<string>)
    requires next != ""
  {
    if TriesLong(cfg, optstring, elem) then
      match LongMatch(Table(cfg), next[..NameLength(next)], cfg.longOnly)
      case Ambiguous => false
      case Found(i) => NameLength(next) == |next| && Table(cfg)[i].hasArg == 1 && behind == []
      case NoMatch => cfg.longOnly && At(elem, 1) != '-' && StarvedShort(cfg, optstring, next, behind)
    else StarvedShort(cfg, optstring, next, behind)
  }

  lemma WantsIffStarvedW(cfg: Config, optstring: string, text: string, behind: seq<string>)
    ensures DecodeW(cfg, optstring, text, behind + [""]).width != DecodeW(cfg, optstring, text, behind).width
            <==> StarvedW(cfg, text, behind)
  {
    hide LongMatch;
  }

  lemma WantsIffStarvedShort(cfg: Config, optstring: string, next: string, behind: seq<string>)
    requires next != ""
    ensures DecodeShort(cfg, optstring, next, behind + [""]).width != DecodeShort(cfg, optstring, next, behind).width
            <==> StarvedShort(cfg, optstring, next, behind)
  {
    hide DecodeW, StarvedW;
    StrChrFinds(optstring, next[0]);
    WantsIffStarvedW(cfg, optstring, next[1..], behind);
  }

  /** Which options those are: the ones that have to get an argument and cannot. */
  lemma WantsIffStarved(cfg: Config, optstring: string, elem: string, next: string, behind: seq<string>)
    requires next != ""
    ensures Wants(cfg, optstring, elem, next, behind) <==> Starved(cfg, optstring, elem, next, behind)
  {
    hide DecodeShort, StarvedShort, LongMatch;
    WantsIffStarvedShort(cfg, optstring, next, behind);
    if TriesLong(cfg, optstring, elem) && StrChr(optstring, next[0]) == "" {
      NeverStarved(cfg, optstring, next, behind);
    }
  }

  lemma NeverStarved(cfg: Config, optstring: string, next: string, behind: seq<string>)
    requires next != "" && StrChr(optstring, next[0]) == ""
    ensures !StarvedShort(cfg, optstring, next, behind)
  {
  }

  /** How many of the arguments behind it the option looks at. */
  function Looked(d: Decoded, behind: seq<string>): (n: nat)
    ensures n <= |behind|
  {
    if d.width == 0 then 0 else if d.width - 1 <= |behind| then d.width - 1 else |behind|
  }

  /** Both begin with what the option looks at. */
  ghost predicate Alike(d: Decoded, behind: seq<string>, other: seq<string>) {
    Looked(d, behind) <= |other| && forall k :: 0 <= k < Looked(d, behind) ==> other[k] == behind[k]
  }

  lemma WantsW(cfg: Config, optstring: string, text: string, behind: seq<string>, other: seq<string>)
    ensures var (d, e) := (DecodeW(cfg, optstring, text, behind), DecodeW(cfg, optstring, text, behind + [""]));
            && (e.width != d.width ==> d.width == 1 + |behind|)
            && (e.width != d.width && behind < other ==> DecodeW(cfg, optstring, text, other).answer != d.answer)
            && (e.width == d.width && Alike(d, behind, other) ==> DecodeW(cfg, optstring, text, other) == d)
  {
    hide LongMatch;
  }

  lemma WantsShort(cfg: Config, optstring: string, next: string, behind: seq<string>, other: seq<string>)
    requires next != ""
    ensures var (d, e) := (DecodeShort(cfg, optstring, next, behind), DecodeShort(cfg, optstring, next, behind + [""]));
            && (e.width != d.width ==> d.width == 1 + |behind|)
            && (e.width != d.width && behind < other ==> DecodeShort(cfg, optstring, next, other).answer != d.answer)
            && (e.width == d.width && Alike(d, behind, other) ==> DecodeShort(cfg, optstring, next, other) == d)
  {
    hide DecodeW;
    WantsW(cfg, optstring, next[1..], behind, other);
  }

  lemma WantsFound(optstring: string, o: LongOption, index: nat, text: Option<string>, behind: seq<string>,
                   other: seq<string>)
    ensures var d := DecodeFound(optstring, o, index, text, behind);
            var e := DecodeFound(optstring, o, index, text, behind + [""]);
            && (e.width != d.width ==> d.width == 1 + |behind|)
            && (e.width != d.width && behind < other ==>
                  DecodeFound(optstring, o, index, text, other).answer != d.answer)
            && (e.width == d.width && Alike(d, behind, other) ==> DecodeFound(optstring, o, index, text, other) == d)
  {
  }

  /** An option that wants an argument more has used up all there are, and is answered
  otherwise if there are more; any other only looks at those it uses up. */
  lemma WantsMore(cfg: Config, optstring: string, elem: string, next: string, behind: seq<string>, other: seq<string>)
    requires next != ""
    ensures var d := Decode(cfg, optstring, elem, next, behind);
            && (Wants(cfg, optstring, elem, next, behind) ==> d.width == 1 + |behind|)
            && (Wants(cfg, optstring, elem, next, behind) && behind < other ==>
                  Decode(cfg, optstring, elem, next, other).answer != d.answer)
            && (!Wants(cfg, optstring, elem, next, behind) && Alike(d, behind, other) ==>
                  Decode(cfg, optstring, elem, next, other) == d)
  {
    hide DecodeShort, DecodeFound, LongMatch, Alike;
    WantsShort(cfg, optstring, next, behind, other);
    if TriesLong(cfg, optstring, elem) {
      var n := NameLength(next);
      match LongMatch(cfg.longopts.value, next[..n], cfg.longOnly) {
        case Found(i) =>
          WantsFound(optstring, cfg.longopts.value[i], i, if n < |next| then Some(next[n + 1..]) else None, behind,
                     other);
        case _ =>
      }
    }
  }

  /** How many arguments behind it the options that start with the characters next
  use; the last of them decides. */
  ghost function Takes(cfg: Config, optstring: string, elem: string, next: string, behind: seq<string>): nat
    requires next != ""
    decreases |next|
  {
    var d := Decode(cfg, optstring, elem, next, behind);
    if d.width == 0 then Takes(cfg, optstring, elem, d.next, behind) else d.width - 1
  }

  /** An option and how many arguments it takes, an argument of an option and how
  many more that takes, neither, or behind the end of the options. */
  datatype Role = AsOption(takes: nat) | AsArgument(left: nat) | AsOther | BehindEnd

  /** What an argument is where no option before it takes it. */
  ghost function RoleAlone(cfg: Config, optstring: string, rest: seq<string>, i: nat): (r: Role)
    requires i < |rest|
    ensures r.AsOption? <==> !Nonoption(rest[i])
  {
    if Nonoption(rest[i]) then AsOther
    else if rest[i] == "--" then AsOption(0)
    else AsOption(Takes(cfg, optstring, rest[i], Characters(cfg, rest[i]), rest[i + 1..]))
  }

  /** What an argument is under PERMUTE, from what stands right in front of it. */
  ghost function RoleOf(cfg: Config, optstring: string, rest: seq<string>, i: nat): Role
    requires i < |rest|
  {
    var before := if i == 0 then AsOther else RoleOf(cfg, optstring, rest, i - 1);
    match before
    case BehindEnd => BehindEnd
    case AsArgument(left) => if left > 0 then AsArgument(left - 1) else RoleAlone(cfg, optstring, rest, i)
    case AsOther => RoleAlone(cfg, optstring, rest, i)
    case AsOption(takes) =>
      if rest[i - 1] == "--" then BehindEnd
      else if takes > 0 then AsArgument(takes - 1)
      else RoleAlone(cfg, optstring, rest, i)
  }

  /** At w nothing is pending: the roles from there on are those of the suffix. */
  lemma {:induction false} RolesFrom(cfg: Config, optstring: string, rest: seq<string>, w: nat, i: nat)
    requires w <= i < |rest| && RoleOf(cfg, optstring, rest, w) == RoleAlone(cfg, optstring, rest, w)
    ensures RoleOf(cfg, optstring, rest, i) == RoleOf(cfg, optstring, rest[w..], i - w)
    decreases i
  {
    hide Takes, Nonoption, Characters;
    assert rest[w..][i - w + 1..] == rest[i + 1..] && rest[w..][i - w] == rest[i];
    assert RoleAlone(cfg, optstring, rest, i) == RoleAlone(cfg, optstring, rest[w..], i - w);
    hide RoleAlone;
    if i > w {
      RolesFrom(cfg, optstring, rest, w, i - 1);
    }
  }

  lemma {:induction false} RolesBehind(cfg: Config, optstring: string, rest: seq<string>, i: nat)
    requires 0 < i < |rest| && rest[0] == "--"
    ensures RoleOf(cfg, optstring, rest, i) == BehindEnd
  {
    if i > 1 { RolesBehind(cfg, optstring, rest, i - 1); }
  }

  /** Behind the option in front stand its arguments, and then anything. */
  lemma {:induction false} RolesOfOption(cfg: Config, optstring: string, rest: seq<string>, i: nat)
    requires i < |rest| && !Nonoption(rest[0]) && rest[0] != "--"
    ensures var takes := Takes(cfg, optstring, rest[0], Characters(cfg, rest[0]), rest[1..]);
            && (i == 0 ==> RoleOf(cfg, optstring, rest, i) == AsOption(takes))
            && (0 < i <= takes ==> RoleOf(cfg, optstring, rest, i) == AsArgument(takes - i))
            && (i == takes + 1 ==> RoleOf(cfg, optstring, rest, i) == RoleAlone(cfg, optstring, rest, i))
    decreases i
  {
    hide Takes, Nonoption, Characters;
    if i > 0 { RolesOfOption(cfg, optstring, rest, i - 1); }
  }

  /** How many arguments one option argument and its last option use up. */
  ghost function Taken(cfg: Config, optstring: string, rest: seq<string>, next: string): (w: nat)
    requires rest != [] && next != ""
    ensures 1 <= w <= |rest| && (w < |rest| ==> w == 1 + Takes(cfg, optstring, rest[0], next, rest[1..]))
    ensures w <= 1 + Takes(cfg, optstring, rest[0], next, rest[1..])
  {
    var w := 1 + Takes(cfg, optstring, rest[0], next, rest[1..]);
    if w <= |rest| then w else |rest|
  }

  lemma {:induction false} ClusterLabels(cfg: Config, optstring: string, rest: seq<string>, next: string)
    requires rest != [] && next != ""
    ensures var w := Taken(cfg, optstring, rest, next);
            Parse(cfg, Permute, optstring, optstring, rest, next).labels
            == Repeat(true, w) + Parse(cfg, Permute, optstring, optstring, rest[w..], "").labels
    decreases |next|
  {
    hide Parse, Decode;
    ParseStep(cfg, Permute, optstring, optstring, rest, next);
    ParseStep(cfg, Permute, optstring, optstring, [], "");
    var d := Decode(cfg, optstring, rest[0], next, rest[1..]);
    if d.width == 0 {
      assert rest[0..] == rest;
      ClusterLabels(cfg, optstring, rest, d.next);
    }
  }

  /** The labels are the roles: exactly the options, "--", and the arguments right
  behind an option that it takes stand in front in the end. */
  lemma {:induction false} LabelsAreRoles(cfg: Config, optstring: string, rest: seq<string>, i: nat)
    requires i < |rest|
    ensures var r := RoleOf(cfg, optstring, rest, i);
            Parse(cfg, Permute, optstring, optstring, rest, "").labels[i] <==> r.AsOption? || r.AsArgument?
    decreases |rest|
  {
    hide Parse, Decode, Takes, Characters, Taken;
    ParseStep(cfg, Permute, optstring, optstring, rest, "");
    if Nonoption(rest[0]) {
      if i > 0 {
        LabelsAreRoles(cfg, optstring, rest[1..], i - 1);
        RolesFrom(cfg, optstring, rest, 1, i);
      }
    } else if rest[0] == "--" {
      if i > 0 { RolesBehind(cfg, optstring, rest, i); }
    } else {
      var next := Characters(cfg, rest[0]);
      var w := Taken(cfg, optstring, rest, next);
      ClusterLabels(cfg, optstring, rest, next);
      RolesOfOption(cfg, optstring, rest, i);
      if i >= w {
        RolesOfOption(cfg, optstring, rest, w);
        LabelsAreRoles(cfg, optstring, rest[w..], i - w);
        RolesFrom(cfg, optstring, rest, w, i);
      }
    }
  }

  /** The argument at i belongs to the option at j. */
  ghost predicate ArgumentOf(cfg: Config, optstring: string, rest: seq<string>, j: nat, i: nat) {
    && j < i < |rest| && !Nonoption(rest[j]) && rest[j] != "--"
    && i - j <= Takes(cfg, optstring, rest[j], Characters(cfg, rest[j]), rest[j + 1..])
  }

  lemma {:induction false} ArgumentHasOption(cfg: Config, optstring: string, rest: seq<string>, i: nat) returns (j: nat)
    requires i < |rest| && RoleOf(cfg, optstring, rest, i).AsArgument?
    ensures ArgumentOf(cfg, optstring, rest, j, i) && RoleOf(cfg, optstring, rest, j).AsOption?
    ensures i - j + RoleOf(cfg, optstring, rest, i).left
         == Takes(cfg, optstring, rest[j], Characters(cfg, rest[j]), rest[j + 1..])
  {
    hide Takes, Nonoption, Characters;
    if RoleOf(cfg, optstring, rest, i - 1).AsArgument? {
      j := ArgumentHasOption(cfg, optstring, rest, i - 1);
    } else {
      j := i - 1;
      OptionAlone(cfg, optstring, rest, j);
    }
  }

  lemma OptionAlone(cfg: Config, optstring: string, rest: seq<string>, i: nat)
    requires i < |rest| && RoleOf(cfg, optstring, rest, i).AsOption?
    ensures RoleOf(cfg, optstring, rest, i) == RoleAlone(cfg, optstring, rest, i)
  {
  }

  /** So what is labelled is an option, or an argument of a labelled option. */
  lemma LabelledMeans(cfg: Config, optstring: string, rest: seq<string>, i: nat)
    requires i < |rest| && Parse(cfg, Permute, optstring, optstring, rest, "").labels[i]
    ensures !Nonoption(rest[i]) || exists j ::
              && 0 <= j < i && Parse(cfg, Permute, optstring, optstring, rest, "").labels[j]
              && ArgumentOf(cfg, optstring, rest, j, i)
  {
    hide Parse, Takes;
    LabelsAreRoles(cfg, optstring, rest, i);
    if RoleOf(cfg, optstring, rest, i).AsArgument? {
      var j := ArgumentHasOption(cfg, optstring, rest, i);
      LabelsAreRoles(cfg, optstring, rest, j);
    } else {
      OptionAlone(cfg, optstring, rest, i);
    }
  }

  /** Under PERMUTE: the last argument is an option, or an argument of one, that
  lacks an argument more. */
  ghost predicate Starves(cfg: Config, now: string, later: string, rest: seq<string>, next: string)
    decreases |rest|, if rest == [] then 0 else if next == "" then |rest[0]| + 1 else |next|
  {
    if rest == [] then false
    else if next != "" then
      var d := Decode(cfg, now, rest[0], next, rest[1..]);
      Wants(cfg, now, rest[0], next,
            rest[1..]) || (d.width < |rest| && Starves(cfg, later, later, rest[d.width..], d.next))
    else if Nonoption(rest[0]) then Starves(cfg, now, later, rest[1..], "")
    else if rest[0] == "--" then false
    else Starves(cfg, now, later, rest, Characters(cfg, rest[0]))
  }

  /** The argument vector after the scan, with some arguments skipped before. */
  ghost function Permuted(cfg: Config, now: string, later: string, rest: seq<string>, next: string,
                          skipped: seq<string>): seq<string> {
    var p := Parse(cfg, Permute, now, later, rest, next);
    Pick(rest, p.labels, true) + (skipped + Pick(rest, p.labels, false))
  }

  ghost predicate AllNonoptions(s: seq<string>) {
    forall i :: 0 <= i < |s| ==> Nonoption(s[i])
  }

  lemma SameHead<T>(x: T, a: seq<T>, b: seq<T>)
    ensures [x] + a == [x] + b <==> a == b
  {
    assert ([x] + a)[1..] == a && ([x] + b)[1..] == b;
  }

  /** An argument that is being decoded is an option. */
  lemma {:induction false} HeadIsOption(cfg: Config, ordering: Ordering, now: string, later: string,
                                        rest: seq<string>, next: string)
    requires rest != [] && next != ""
    ensures Parse(cfg, ordering, now, later, rest, next).labels[0]
    decreases |next|
  {
    hide Parse, Decode;
    ParseStep(cfg, ordering, now, later, rest, next);
    var d := Decode(cfg, now, rest[0], next, rest[1..]);
    if d.width == 0 {
      HeadIsOption(cfg, ordering, later, later, rest, d.next);
      assert rest[0..] == rest;
    }
  }

  /** One option, as the permuted vector has it. */
  lemma PermutedOption(cfg: Config, now: string, later: string, rest: seq<string>, next: string, skipped: seq<string>)
    requires rest != [] && next != ""
    ensures var d := Decode(cfg, now, rest[0], next, rest[1..]);
            var again := Permuted(cfg, now, later, rest, next, skipped);
            var others := Pick(rest, Parse(cfg, Permute, now, later, rest, next).labels, false);
            && again != [] && again[0] == rest[0]
            && if d.width >= |rest| then again == rest + skipped && others == []
               else
                 var q := Parse(cfg, Permute, later, later, rest[d.width..], d.next);
                 && again == rest[..d.width] + Permuted(cfg, later, later, rest[d.width..], d.next, skipped)
                 && others == Pick(rest[d.width..], q.labels, false)
  {
    hide Parse, Decode;
    ParseStep(cfg, Permute, now, later, rest, next);
    ParseStep(cfg, Permute, later, later, [], "");
    var d := Decode(cfg, now, rest[0], next, rest[1..]);
    if d.width >= |rest| {
      PickAll(rest, Repeat(true, |rest|), true);
      assert Repeat(true, |rest|) + [] == Repeat(true, |rest|) && rest[|rest|..] == [];
      assert rest + (skipped + []) == rest + skipped;
    } else {
      var q := Parse(cfg, Permute, later, later, rest[d.width..], d.next);
      PickRun(rest, d.width, q.labels, true);
      if d.width == 0 {
        assert rest[0..] == rest;
        HeadIsOption(cfg, Permute, later, later, rest, d.next);
      }
    }
  }

  /** The scan starves here: the second time a skipped argument is taken. */
  lemma RescanStarved(cfg: Config, now: string, later: string, rest: seq<string>, next: string, skipped: seq<string>)
    requires rest != [] && next != "" && Wants(cfg, now, rest[0], next, rest[1..])
    ensures var p := Parse(cfg, Permute, now, later, rest, next);
            var again := Parse(cfg, Permute, now, later, Permuted(cfg, now, later, rest, next, skipped), next);
            again.answers == p.answers <==> skipped + Pick(rest, p.labels, false) == []
  {
    hide Parse, Decode, Wants, Permuted;
    PermutedOption(cfg, now, later, rest, next, skipped);
    WantsMore(cfg, now, rest[0], next, rest[1..], rest[1..] + skipped);
    ParseStep(cfg, Permute, now, later, rest, next);
    ParseStep(cfg, Permute, now, later, rest + skipped, next);
    if skipped == [] {
      assert rest + [] == rest;
    } else {
      assert (rest + skipped)[1..] == rest[1..] + skipped && rest[1..] < rest[1..] + skipped;
      var (d, e) := (Decode(cfg, now, rest[0], next, rest[1..]), Decode(cfg, now, rest[0], next, rest[1..] + skipped));
      assert Parse(cfg, Permute, now, later, rest, next).answers[0] == d.answer;
      assert Parse(cfg, Permute, now, later, rest + skipped, next).answers[0] == e.answer;
    }
  }

  /** Otherwise an option is decoded as before. */
  lemma RescanDecode(cfg: Config, now: string, later: string, rest: seq<string>, next: string, skipped: seq<string>)
    requires rest != [] && next != "" && !Wants(cfg, now, rest[0], next, rest[1..])
    ensures var again := Permuted(cfg, now, later, rest, next, skipped);
            again != [] && Decode(cfg, now, again[0], next, again[1..]) == Decode(cfg, now, rest[0], next, rest[1..])
  {
    hide Decode, Permuted, Wants, Parse;
    PermutedOption(cfg, now, later, rest, next, skipped);
    var again := Permuted(cfg, now, later, rest, next, skipped);
    WantsMore(cfg, now, rest[0], next, rest[1..], again[1..]);
  }

  /** It was the last one: only skipped arguments are left behind it. */
  lemma RescanLast(cfg: Config, now: string, later: string, rest: seq<string>, next: string, skipped: seq<string>)
    requires rest != [] && next != "" && !Wants(cfg, now, rest[0], next, rest[1..]) && AllNonoptions(skipped)
    requires Decode(cfg, now, rest[0], next, rest[1..]).width >= |rest|
    ensures Parse(cfg, Permute, now, later, rest, next).answers
         == Parse(cfg, Permute, now, later, Permuted(cfg, now, later, rest, next, skipped), next).answers
  {
    hide Parse, Decode, Permuted, Wants, Nonoption;
    PermutedOption(cfg, now, later, rest, next, skipped);
    RescanDecode(cfg, now, later, rest, next, skipped);
    ParseStep(cfg, Permute, now, later, rest, next);
    ParseStep(cfg, Permute, now, later, rest + skipped, next);
    ParseStep(cfg, Permute, later, later, [], "");
    var d := Decode(cfg, now, rest[0], next, rest[1..]);
    assert [d.answer] + [] == [d.answer];
    if d.width <= |rest + skipped| {
      assert (rest + skipped)[d.width..] == skipped[d.width - |rest|..];
      OnlyNonoptions(cfg, later, later, skipped[d.width - |rest|..]);
    }
  }

  lemma RescanTail(cfg: Config, now: string, later: string, rest: seq<string>, next: string, skipped: seq<string>)
    requires rest != [] && next != "" && !Wants(cfg, now, rest[0], next, rest[1..])
    requires Decode(cfg, now, rest[0], next, rest[1..]).width < |rest|
    ensures var d := Decode(cfg, now, rest[0], next, rest[1..]);
            var again := Permuted(cfg, now, later, rest, next, skipped);
            var tail := Permuted(cfg, later, later, rest[d.width..], d.next, skipped);
            var left := Parse(cfg, Permute, later, later, rest[d.width..], d.next);
            && Parse(cfg, Permute, now, later, rest, next).answers == [d.answer] + left.answers
            && Parse(cfg, Permute, now, later, again, next).answers
               == [d.answer] + Parse(cfg, Permute, later, later, tail, d.next).answers
  {
    hide Parse, Decode, Permuted, Wants;
    PermutedOption(cfg, now, later, rest, next, skipped);
    RescanDecode(cfg, now, later, rest, next, skipped);
    ParseStep(cfg, Permute, now, later, rest, next);
    ParseStep(cfg, Permute, now, later, Permuted(cfg, now, later, rest, next, skipped), next);
  }

  /** Scanning the permuted vector again gives the same answers, unless the scan
  ran out of arguments for its last option and had skipped some before: then the
  option takes a skipped argument the second time. */
  lemma {:induction false} Rescan(cfg: Config, now: string, later: string, rest: seq<string>, next: string,
                                  skipped: seq<string>)
    requires AllNonoptions(skipped) && (next != "" ==> rest != [])
    ensures var p := Parse(cfg, Permute, now, later, rest, next);
            var again := Parse(cfg, Permute, now, later, Permuted(cfg, now, later, rest, next, skipped), next);
            again.answers == p.answers <==>
              !(Starves(cfg, now, later, rest, next) && skipped + Pick(rest, p.labels, false) != [])
    decreases |rest|, if rest == [] then 0 else if next == "" then |rest[0]| + 1 else |next|, 1
  {
    hide Decode, Characters, Wants;
    var p := Parse(cfg, Permute, now, later, rest, next);
    if rest == [] {
      OnlyNonoptions(cfg, now, later, skipped);
      assert Permuted(cfg, now, later, rest, next, skipped) == skipped;
    } else if next != "" {
      RescanOption(cfg, now, later, rest, next, skipped);
    } else if Nonoption(rest[0]) {
      var q := Parse(cfg, Permute, now, later, rest[1..], "");
      assert ([false] + q.labels)[1..] == q.labels;
      assert skipped + [rest[0]] + Pick(rest[1..], q.labels, false) == skipped + Pick(rest, p.labels, false);
      assert Permuted(cfg, now, later, rest, next, skipped)
          == Permuted(cfg, now, later, rest[1..], "", skipped + [rest[0]]);
      Rescan(cfg, now, later, rest[1..], "", skipped + [rest[0]]);
    } else if rest[0] == "--" {
    } else {
      PermutedOption(cfg, now, later, rest, Characters(cfg, rest[0]), skipped);
      Rescan(cfg, now, later, rest, Characters(cfg, rest[0]), skipped);
    }
  }

  lemma {:induction false} RescanOption(cfg: Config, now: string, later: string, rest: seq<string>, next: string,
                                        skipped: seq<string>)
    requires AllNonoptions(skipped) && rest != [] && next != ""
    ensures var p := Parse(cfg, Permute, now, later, rest, next);
            var again := Parse(cfg, Permute, now, later, Permuted(cfg, now, later, rest, next, skipped), next);
            again.answers == p.answers <==>
              !(Starves(cfg, now, later, rest, next) && skipped + Pick(rest, p.labels, false) != [])
    decreases |rest|, |next|, 0
  {
    hide Parse, Decode, Wants, Permuted, AllNonoptions;
    var d := Decode(cfg, now, rest[0], next, rest[1..]);
    PermutedOption(cfg, now, later, rest, next, skipped);
    if Wants(cfg, now, rest[0], next, rest[1..]) {
      RescanStarved(cfg, now, later, rest, next, skipped);
    } else if d.width >= |rest| {
      RescanLast(cfg, now, later, rest, next, skipped);
    } else {
      Rescan(cfg, later, later, rest[d.width..], d.next, skipped);
      RescanTail(cfg, now, later, rest, next, skipped);
      SameHead(d.answer, Parse(cfg, Permute, later, later, rest[d.width..], d.next).answers,
               Parse(cfg, Permute, later, later, Permuted(cfg, later, later, rest[d.width..], d.next, skipped),
                     d.next).answers);
    }
  }

  lemma OnlyNonoptions(cfg: Config, now: string, later: string, s: seq<string>)
    requires AllNonoptions(s)
    ensures Parse(cfg, Permute, now, later, s, "").answers == []
  {
    if s != [] { OnlyNonoptions(cfg, now, later, s[1..]); }
  }

  /** The shortest case of the exception: with "a:", "x -a" is answered by a
  missing argument, but leaves "-a x", in which x is the argument. */
  lemma RescanExample()
    ensures var (cfg, rest) := (Config(None, false), ["x", "-a"]);
            var p := Parse(cfg, Permute, "a:", "a:", rest, "");
            && p.answers == [Reply('?' as int, None, Some('a' as int))]
            && Permuted(cfg, "a:", "a:", rest, "", []) == ["-a", "x"]
            && Parse(cfg, Permute, "a:", "a:", ["-a", "x"], "").answers == [Reply('a' as int, Some("x"), None)]
  {
    var cfg := Config(None, false);
    assert Characters(cfg, "-a") == "a";
    assert Decode(cfg, "a:", "-a", "a", []) == Decoded(Reply('?' as int, None, Some('a' as int)), 1, "");
    assert Decode(cfg, "a:", "-a", "a", ["x"]) == Decoded(Reply('a' as int, Some("x"), None), 2, "");
    hide Decode, DecodeShort;
    assert ["x", "-a"][1..] == ["-a"] && ["-a"][1..] == [] && ["-a", "x"][1..] == ["x"] && ["-a", "x"][2..] == [];
    var q := Parse(cfg, Permute, "a:", "a:", ["-a"], "a");
    assert q == Parsed([true], [Reply('?' as int, None, Some('a' as int))], false);
    assert ([false] + q.labels)[1..] == [true];
  }
}
