/** What each way of writing an option scans to, spelled out; and what a call then hands back. */
module Spellings {
  import opened Wrappers
  import opened OptionTable
  import opened ScanSpec

  /** One option element `word`, which takes itself and perhaps the argument after it. */
  lemma OneElement(cfg: Config, word: string, rest: seq<string>, e: Element)
    requires !NonOption(word) && word != "--" && ElementOf(cfg, [word] + rest) == e
    ensures var args := [word] + rest;
      var r := ScanAll(cfg, args[e.used..]);
      ScanAll(cfg, args) == Scan(e.events + r.events, args[..e.used] + r.consumed, r.operands, r.terminated)
  {}

  lemma AloneIsFirst<T>(x: T, rest: seq<T>)
    ensures ([x] + rest)[1..] == rest && ([x] + rest)[..1] == [x]
  {}

  lemma BothAreFirst<T>(x: T, y: T, rest: seq<T>)
    ensures [x, y] + rest == [x] + ([y] + rest)
    ensures ([x, y] + rest)[2..] == rest && ([x, y] + rest)[..2] == [x, y]
  {}

  // ----- long options

  lemma TextOf(name: string, suffix: string)
    requires '=' !in name && (suffix == "" || suffix[0] == '=')
    ensures var text := name + suffix;
      && IndexOf(text, '=') == |name| && text[..|name|] == name && (suffix != "" ==> text[|name| + 1..] == suffix[1..])
    ensures ("--" + name + suffix)[2..] == name + suffix && ("--" + name + suffix)[..2] == "--"
  {
    IndexIsUnique(name + suffix, '=', |name|);
  }

  /** `--name=value`, abbreviated or not. */
  lemma LongWithValue(cfg: Config, longs: seq<LongOption>, name: string, v: string, i: nat, rest: seq<string>)
    requires cfg.longs == Some(longs) && '=' !in name && Lookup(longs, name) == Found(i)
    ensures var word, r := "--" + name + "=" + v, ScanAll(cfg, rest);
      ScanAll(cfg, [word] + rest) ==
        Scan([if longs[i].hasArg == NoArgument then Error(ArgumentNotAllowed(i)) else LongOpt(i, Some(v))] + r.events,
             [word] + r.consumed, r.operands, r.terminated)
  {
    var word := "--" + name + "=" + v;
    TextOf(name, "=" + v);
    assert word == "--" + name + ("=" + v) && word[2..] == name + ("=" + v);
    AloneIsFirst(word, rest);
    OneElement(cfg, word, rest, ElementOf(cfg, [word] + rest));
  }

  /** `--name value` for an option that needs its argument. */
  lemma LongThenValue(cfg: Config, longs: seq<LongOption>, name: string, v: string, i: nat, rest: seq<string>)
    requires cfg.longs == Some(longs) && '=' !in name && name != "" && Lookup(longs, name) == Found(i)
    requires longs[i].hasArg == RequiredArgument
    ensures var r := ScanAll(cfg, rest);
      ScanAll(cfg, ["--" + name, v] + rest) ==
        Scan([LongOpt(i, Some(v))] + r.events, ["--" + name, v] + r.consumed, r.operands, r.terminated)
  {
    TextOf(name, "");
    assert name + "" == name && "--" + name + "" == "--" + name;
    BothAreFirst("--" + name, v, rest);
    AloneIsFirst("--" + name, [v] + rest);
    OneElement(cfg, "--" + name, [v] + rest, Element([LongOpt(i, Some(v))], 2));
  }

  /** `--name` by itself: nothing for an option whose argument is optional or not allowed, and an error
      for one that needs it and stands at the end. */
  lemma LongAlone(cfg: Config, longs: seq<LongOption>, name: string, i: nat, rest: seq<string>)
    requires cfg.longs == Some(longs) && '=' !in name && name != "" && Lookup(longs, name) == Found(i)
    requires longs[i].hasArg == RequiredArgument ==> rest == []
    ensures var r := ScanAll(cfg, rest);
      ScanAll(cfg, ["--" + name] + rest) ==
        Scan([if longs[i].hasArg == RequiredArgument then Error(LongArgumentMissing(i)) else LongOpt(i, None)]
               + r.events,
             ["--" + name] + r.consumed, r.operands, r.terminated)
  {
    TextOf(name, "");
    assert name + "" == name && "--" + name + "" == "--" + name;
    AloneIsFirst("--" + name, rest);
    OneElement(cfg, "--" + name, rest, ElementOf(cfg, ["--" + name] + rest));
  }

  /** A name that stands for no one option, with a value or without. */
  lemma LongUnfound(cfg: Config, longs: seq<LongOption>, name: string, suffix: string, rest: seq<string>)
    requires cfg.longs == Some(longs) && '=' !in name && !Lookup(longs, name).Found?
    requires if suffix == "" then name != "" else suffix[0] == '='
    ensures var word, r := "--" + name + suffix, ScanAll(cfg, rest);
      ScanAll(cfg, [word] + rest) ==
        Scan([Error(if Lookup(longs, name) == Ambiguous then AmbiguousName else UnknownName)] + r.events,
             [word] + r.consumed, r.operands, r.terminated)
  {
    var word := "--" + name + suffix;
    TextOf(name, suffix);
    AloneIsFirst(word, rest);
    OneElement(cfg, word, rest, ElementOf(cfg, [word] + rest));
  }

  // ----- option characters

  lemma FirstOfCluster(shorts: string, c: char, more: string, rest: seq<string>, e: Event)
    requires e == (match KindOf(shorts, c)
                   case Invalid => Error(UnknownChar(c))
                   case Takes(_) => ShortOpt(c, None))
    requires KindOf(shorts, c) in {Invalid, Takes(NoArgument)}
    ensures Cluster(shorts, [c] + more, rest) == After(e, Cluster(shorts, more, rest))
  {
    assert ([c] + more)[1..] == more;
  }

  lemma WhatIsTaken(word: string, rest: seq<string>, used: nat)
    requires 1 <= used <= 1 + |rest|
    ensures ([word] + rest)[used..] == rest[used - 1..] && ([word] + rest)[..used] == [word] + rest[..used - 1]
  {}

  lemma HeadReplaced(word: string, shorter: string, front: seq<string>, more: seq<string>)
    ensures [word] + front + more == [word] + ([shorter] + front + more)[1..]
  {}

  /** Two elements that take as many, one with one event more in front. */
  lemma OneEventMore(cfg: Config, word: string, shorter: string, rest: seq<string>, e: Event, el: Element)
    requires !NonOption(word) && word != "--" && !NonOption(shorter) && shorter != "--"
    requires ElementOf(cfg, [shorter] + rest) == el && ElementOf(cfg, [word] + rest) == After(e, el)
    ensures var r := ScanAll(cfg, [shorter] + rest);
      && r.consumed != [] && r.consumed[0] == shorter
      && ScanAll(cfg, [word] + rest) == r.(events := [e] + r.events, consumed := [word] + r.consumed[1..])
  {
    hide ScanAll, ElementOf, NonOption;
    OneElement(cfg, word, rest, After(e, el));
    OneElement(cfg, shorter, rest, el);
    WhatIsTaken(word, rest, el.used);
    WhatIsTaken(shorter, rest, el.used);
    HeadReplaced(word, shorter, rest[..el.used - 1], ScanAll(cfg, rest[el.used - 1..]).consumed);
    assert ([e] + el.events) + ScanAll(cfg, rest[el.used - 1..]).events
        == [e] + (el.events + ScanAll(cfg, rest[el.used - 1..]).events);
  }

  /** A character that takes no argument or is no option: the rest of the element is read as if it stood
      behind the dash itself. */
  lemma CharThenMore(cfg: Config, c: char, more: string, rest: seq<string>)
    requires KindOf(cfg.shorts, c) in {Invalid, Takes(NoArgument)}
    requires more != "" && (cfg.longs == None || (c != '-' && more[0] != '-')) && more != "-"
    ensures var word, r := "-" + [c] + more, ScanAll(cfg, ["-" + more] + rest);
      && r.consumed != [] && r.consumed[0] == "-" + more
      && ScanAll(cfg, [word] + rest) ==
           Scan([if KindOf(cfg.shorts, c) == Invalid then Error(UnknownChar(c)) else ShortOpt(c, None)] + r.events,
                [word] + r.consumed[1..], r.operands, r.terminated)
  {
    var word, shorter := "-" + [c] + more, "-" + more;
    var e := if KindOf(cfg.shorts, c) == Invalid then Error(UnknownChar(c)) else ShortOpt(c, None);
    assert word[1..] == [c] + more && shorter[1..] == more;
    assert word[1] == c && shorter[1] == more[0];
    FirstOfCluster(cfg.shorts, c, more, rest, e);
    AloneIsFirst(word, rest);
    AloneIsFirst(shorter, rest);
    hide Cluster, ScanAll;
    OneEventMore(cfg, word, shorter, rest, e, Cluster(cfg.shorts, more, rest));
  }

  /** `-c` by itself; one that needs an argument stands at the end and lacks it. */
  lemma CharAlone(cfg: Config, c: char, rest: seq<string>)
    requires c != '-' && (KindOf(cfg.shorts, c) == Takes(RequiredArgument) ==> rest == [])
    ensures var r := ScanAll(cfg, rest);
      ScanAll(cfg, ["-" + [c]] + rest) ==
        Scan([match KindOf(cfg.shorts, c)
              case Invalid => Error(UnknownChar(c))
              case Takes(RequiredArgument) => Error(ShortArgumentMissing(c))
              case _ => ShortOpt(c, None)] + r.events,
             ["-" + [c]] + r.consumed, r.operands, r.terminated)
  {
    var word := "-" + [c];
    assert word[1..] == [c] && [c][1..] == "" && word[1] == c;
    AloneIsFirst(word, rest);
    var e := match KindOf(cfg.shorts, c)
      case Invalid => Error(UnknownChar(c))
      case Takes(RequiredArgument) => Error(ShortArgumentMissing(c))
      case _ => ShortOpt(c, None);
    assert Cluster(cfg.shorts, [c], rest) == Element([e], 1);
    OneElement(cfg, word, rest, Element([e], 1));
  }

  /** `-cvalue` for one whose argument is required or optional. */
  lemma CharWithValue(cfg: Config, c: char, v: string, rest: seq<string>)
    requires KindOf(cfg.shorts, c) in {Takes(RequiredArgument), Takes(OptionalArgument)}
    requires v != "" && (c != '-' || cfg.longs == None)
    ensures var word, r := "-" + [c] + v, ScanAll(cfg, rest);
      ScanAll(cfg, [word] + rest) ==
        Scan([ShortOpt(c, Some(v))] + r.events, [word] + r.consumed, r.operands, r.terminated)
  {
    var word := "-" + [c] + v;
    assert word[1..] == [c] + v && ([c] + v)[1..] == v && word[1] == c;
    AloneIsFirst(word, rest);
    OneElement(cfg, word, rest, Element([ShortOpt(c, Some(v))], 1));
  }

  /** `-c value` for one that needs its argument. */
  lemma CharThenValue(cfg: Config, c: char, v: string, rest: seq<string>)
    requires KindOf(cfg.shorts, c) == Takes(RequiredArgument) && c != '-'
    ensures var r := ScanAll(cfg, rest);
      ScanAll(cfg, ["-" + [c], v] + rest) ==
        Scan([ShortOpt(c, Some(v))] + r.events, ["-" + [c], v] + r.consumed, r.operands, r.terminated)
  {
    var word := "-" + [c];
    assert word[1..] == [c] && [c][1..] == "" && word[1] == c;
    BothAreFirst(word, v, rest);
    AloneIsFirst(word, [v] + rest);
    OneElement(cfg, word, [v] + rest, Element([ShortOpt(c, Some(v))], 2));
  }

  // ----- the rest of a command line

  /** Nothing, a "--", and an element that does not start with '-' or is "-" itself. */
  lemma OtherElements(cfg: Config, a: string, rest: seq<string>)
    requires a == "" || a[0] != '-' || a == "-"
    ensures ScanAll(cfg, []) == Scan([], [], [], false)
    ensures ScanAll(cfg, ["--"] + rest) == Scan([], ["--"], rest, true)
    ensures var r := ScanAll(cfg, rest);
      ScanAll(cfg, [a] + rest) ==
        match cfg.ordering
        case RequireOrder => Scan([], [], [a] + rest, false)
        case Permute => Scan(r.events, r.consumed, [a] + r.operands, r.terminated)
        case ReturnInOrder => Scan([NonOpt(a)] + r.events, [a] + r.consumed, r.operands, r.terminated)
  {
    AloneIsFirst("--", rest);
    AloneIsFirst(a, rest);
  }

  /** An option reported is one of the tables, with an argument exactly as its entry asks; an operand reported
      has no option syntax, and is reported under RETURN_IN_ORDER only. */
  lemma FitsItsEntry(cfg: Config, e: Event)
    requires WellFormed(cfg, e)
    ensures match e
      case ShortOpt(c, arg) =>
        var k := KindOf(cfg.shorts, c);
        && k != Invalid && (k == Takes(RequiredArgument) ==> arg != None) && (k == Takes(NoArgument) ==> arg == None)
      case LongOpt(i, arg) =>
        && cfg.longs.Some? && i < |cfg.longs.value|
        && (cfg.longs.value[i].hasArg == RequiredArgument ==> arg != None)
        && (cfg.longs.value[i].hasArg == NoArgument ==> arg == None)
      case NonOpt(a) => cfg.ordering == ReturnInOrder && (a == "" || a[0] != '-' || a == "-")
      case Error(p) =>
        && (p == AmbiguousName || p == UnknownName ==> cfg.longs != None)
        && (forall i: nat :: p == ArgumentNotAllowed(i) ==>
              cfg.longs.Some? && i < |cfg.longs.value| && cfg.longs.value[i].hasArg == NoArgument)
        && (forall i: nat :: p == LongArgumentMissing(i) ==>
              cfg.longs.Some? && i < |cfg.longs.value| && cfg.longs.value[i].hasArg == RequiredArgument)
        && (forall c :: p == UnknownChar(c) ==> KindOf(cfg.shorts, c) == Invalid)
        && (forall c :: p == ShortArgumentMissing(c) ==> KindOf(cfg.shorts, c) == Takes(RequiredArgument))
  {}

  // ----- what a call hands back

  /** A long option found: its `val`, or 0 with the `val` in its flag cell; `*longind` is its index. */
  lemma AfterLongOption(cfg: Config, longs: seq<LongOption>, i: nat, arg: Option<string>,
                        optopt: int, flags: map<int, int>, longind: nat)
    requires cfg.longs == Some(longs) && WellFormed(cfg, LongOpt(i, arg))
    ensures var e, o := LongOpt(i, arg), longs[i];
      && Arg(e) == arg && NewLongind(e, longind) == i && NewOptopt(cfg, e, optopt) == optopt
      && (o.flag == None ==> ReturnCode(cfg, e) == o.val && NewFlags(cfg, e, flags) == flags)
      && (forall cell :: o.flag == Some(cell) ==>
            ReturnCode(cfg, e) == 0 && NewFlags(cfg, e, flags) == flags[cell := o.val])
  {}

  /** An option character, or an operand described as one with code 1. */
  lemma AfterCharOrOperand(cfg: Config, c: char, arg: Option<string>, text: string,
                           optopt: int, flags: map<int, int>, longind: nat)
    requires WellFormed(cfg, ShortOpt(c, arg)) && WellFormed(cfg, NonOpt(text))
    ensures ReturnCode(cfg, ShortOpt(c, arg)) == c as int && Arg(ShortOpt(c, arg)) == arg
    ensures ReturnCode(cfg, NonOpt(text)) == 1 && Arg(NonOpt(text)) == Some(text)
    ensures forall e :: e == ShortOpt(c, arg) || e == NonOpt(text) ==>
      && NewOptopt(cfg, e, optopt) == optopt && NewFlags(cfg, e, flags) == flags
      && NewLongind(e, longind) == longind
  {}

  /** An error: '?', or ':' for a missing argument if the option characters start with a colon; `optopt` is
      the character, the `val` of the option found, or 0. */
  lemma AfterError(cfg: Config, p: Problem, optopt: int, flags: map<int, int>, longind: nat)
    requires WellFormed(cfg, Error(p))
    ensures var e := Error(p);
      && Arg(e) == None && NewFlags(cfg, e, flags) == flags && NewLongind(e, longind) == longind
      && (match p
          case ShortArgumentMissing(_) => ReturnCode(cfg, e) == if ":" <= cfg.shorts then ':' as int else '?' as int
          case LongArgumentMissing(_) => ReturnCode(cfg, e) == if ":" <= cfg.shorts then ':' as int else '?' as int
          case _ => ReturnCode(cfg, e) == '?' as int)
      && (match p
          case UnknownChar(c) => NewOptopt(cfg, e, optopt) == c as int
          case ShortArgumentMissing(c) => NewOptopt(cfg, e, optopt) == c as int
          case ArgumentNotAllowed(i) =>
            cfg.longs.Some? && i < |cfg.longs.value| && NewOptopt(cfg, e, optopt) == cfg.longs.value[i].val
          case LongArgumentMissing(i) =>
            cfg.longs.Some? && i < |cfg.longs.value| && NewOptopt(cfg, e, optopt) == cfg.longs.value[i].val
          case _ => NewOptopt(cfg, e, optopt) == 0)
  {}
}
