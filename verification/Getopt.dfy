/** The resumable scanner: one `Next` call reports one event and rearranges `argv` in place. */
module Getopt {
  import opened Wrappers
  import opened OptionTable
  import opened Rotation
  import opened ScanSpec
  import opened ScanState

  datatype Result = Done | Got(event: Event)

  function OrderingOf(optstring: string, posixlyCorrect: bool): Ordering {
    if optstring != "" && optstring[0] == '-' then ReturnInOrder
    else if optstring != "" && optstring[0] == '+' then RequireOrder
    else if posixlyCorrect then RequireOrder
    else Permute
  }

  function WithoutSign(optstring: string): string {
    if optstring != "" && optstring[0] in {'-', '+'} then optstring[1..] else optstring
  }

  function ConfigOf(optstring: string, longopts: Option<seq<LongOption>>, posixlyCorrect: bool): Config {
    Config(OrderingOf(optstring, posixlyCorrect), WithoutSign(optstring), longopts)
  }

  /** A leading '-' or '+' picks the ordering whatever the environment says, and is no option itself. */
  lemma SignPicksOrdering(s: string, longopts: Option<seq<LongOption>>, posixlyCorrect: bool)
    ensures ConfigOf("-" + s, longopts, posixlyCorrect) == Config(ReturnInOrder, s, longopts)
    ensures ConfigOf("+" + s, longopts, posixlyCorrect) == Config(RequireOrder, s, longopts)
    ensures !("-" <= s) && !("+" <= s) ==>
      ConfigOf(s, longopts, posixlyCorrect) == Config(if posixlyCorrect then RequireOrder else Permute, s, longopts)
  {}

  /** Swaps the disjoint blocks [p, p+n) and [q, q+n), one element swap at a time. */
  method SwapBlocks(argv: array<string>, p: nat, q: nat, n: nat) returns (ghost swaps: nat)
    requires p + n <= q && q + n <= argv.Length
    modifies argv
    ensures argv[..] == BlocksSwapped(old(argv[..]), p, q, n)
    ensures swaps == n
  {
    swaps := 0;
    for i := 0 to n
      invariant swaps == i
      invariant forall k :: p <= k < p + i ==> argv[k] == old(argv[k + q - p])
      invariant forall k :: q <= k < q + i ==> argv[k] == old(argv[k + p - q])
      invariant forall k :: 0 <= k < argv.Length && !(p <= k < p + i) && !(q <= k < q + i) ==> argv[k] == old(argv[k])
    {
      argv[p + i], argv[q + i] := argv[q + i], argv[p + i];
      swaps := swaps + 1;
    }
    SwappedPointwise(old(argv[..]), argv[..], p, q, n);
  }

  /** Exchanges the adjacent blocks [f, l) and [l, o) in place. */
  method Rotate(argv: array<string>, f: nat, l: nat, o: nat) returns (ghost swaps: nat)
    requires f <= l <= o <= argv.Length
    modifies argv
    ensures argv[..] == Rotated(old(argv[..]), f, l, o)
    ensures swaps == Work(l - f, o - l)
  {
    hide Rotated, BlocksSwapped;
    ghost var goal := Rotated(argv[..], f, l, o);
    var bottom, middle, top := f, l, o;
    swaps := 0;
    while top > middle && middle > bottom
      invariant f <= bottom <= middle <= top <= o
      invariant Rotated(argv[..], bottom, middle, top) == goal
      invariant swaps + Work(middle - bottom, top - middle) == Work(l - f, o - l)
      decreases top - bottom
    {
      ghost var s := argv[..];
      ghost var n;
      if top - middle > middle - bottom {
        var len := middle - bottom;
        n := SwapBlocks(argv, bottom, top - (middle - bottom), len);
        BottomIsShort(s, bottom, middle, top);
        top := top - len;
      } else {
        var len := top - middle;
        n := SwapBlocks(argv, bottom, middle, len);
        TopIsShort(s, bottom, middle, top);
        bottom := bottom + len;
      }
      swaps := swaps + n;
    }
    NothingToRotate(argv[..], bottom, middle, top);
  }

  lemma SuffixOfSuffix(a: seq<string>, b: seq<string>, k: nat, m: nat)
    requires |a| == |b| && k <= m <= |a| && a[k..] == b[k..]
    ensures a[m..] == b[m..]
  {}

  class Scanner {
    const argv: array<string>
    const optstring: string
    const longopts: Option<seq<LongOption>>
    const posixlyCorrect: bool

    // what the caller sees
    var optind: nat
    var optopt: int
    var optarg: Option<string>
    var longind: nat
    var flags: map<int, int>

    // the scanner's own state
    var initialized: bool
    var nextchar: CharPtr
    var ordering: Ordering
    var firstNonopt: nat
    var lastNonopt: nat

    /** The array as this scan found it at its first call, or as the scan before left it at its end. */
    ghost var original: seq<string>

    constructor (argv: array<string>, optstring: string, longopts: Option<seq<LongOption>>, posixlyCorrect: bool)
      requires NoLongW(WithoutSign(optstring))
      ensures this.argv == argv && this.optstring == optstring
      ensures this.longopts == longopts && this.posixlyCorrect == posixlyCorrect
      ensures Valid() && Fresh() && optind == 1 && optopt == 0 && optarg == None
    {
      this.argv, this.optstring, this.longopts, this.posixlyCorrect := argv, optstring, longopts, posixlyCorrect;
      optind, optopt, optarg, longind, flags := 1, 0, None, 0, map[];
      initialized, nextchar, ordering, firstNonopt, lastNonopt := false, Null, RequireOrder, 0, 0;
      original := [];
    }

    ghost function Cfg(): Config {
      ConfigOf(optstring, longopts, posixlyCorrect)
    }

    /** The next call is a first call. */
    predicate Fresh()
      reads this
    {
      optind == 0 || !initialized
    }

    ghost function View(): State
      reads this, argv
    {
      if Fresh() then
        var start := if optind == 0 then 1 else optind;
        State(argv[..], start, start, start, Null)
      else State(argv[..], firstNonopt, lastNonopt, optind, nextchar)
    }

    ghost predicate Coherent()
      reads this, argv
    {
      argv.Length > 0 ==> Sound(Cfg(), View()) && (!Fresh() ==> ordering == Cfg().ordering)
    }

    ghost predicate Valid()
      reads this, argv
    {
      Coherent() && (argv.Length > 0 && !Fresh() ==> ReachedFrom(original, View()))
    }

    /** Everything the scan will have reported and arranged when it ends. */
    ghost function Goal(): Scan
      requires Coherent() && argv.Length > 0
      reads this, argv
    {
      Outcome(Cfg(), View())
    }

    method Exchange() returns (ghost swaps: nat)
      requires firstNonopt <= lastNonopt <= optind <= argv.Length
      modifies argv, `firstNonopt, `lastNonopt
      ensures argv[..] == Rotated(old(argv[..]), old(firstNonopt), old(lastNonopt), optind)
      ensures firstNonopt == old(firstNonopt) + (optind - old(lastNonopt)) && lastNonopt == optind
      ensures argv[..][firstNonopt..lastNonopt] == old(argv[..][firstNonopt..lastNonopt])
      ensures swaps == Work(old(lastNonopt) - old(firstNonopt), optind - old(lastNonopt))
    {
      WhereBlocksAre(argv[..], firstNonopt, lastNonopt, optind);
      hide Rotated;
      swaps := Rotate(argv, firstNonopt, lastNonopt, optind);
      firstNonopt := firstNonopt + (optind - lastNonopt);
      lastNonopt := optind;
    }

    method Initialize()
      requires optind != 0
      modifies this
      ensures !Fresh() && ordering == Cfg().ordering && View() == State(argv[..], optind, optind, optind, Null)
      ensures original == argv[..]
      ensures optind == old(optind) && optarg == old(optarg)
      ensures flags == old(flags) && optopt == old(optopt) && longind == old(longind)
    {
      firstNonopt, lastNonopt := optind, optind;
      nextchar := Null;
      if optstring != "" && optstring[0] == '-' {
        ordering := ReturnInOrder;
      } else if optstring != "" && optstring[0] == '+' {
        ordering := RequireOrder;
      } else if posixlyCorrect {
        ordering := RequireOrder;
      } else {
        ordering := Permute;
      }
      initialized := true;
      original := argv[..];
    }

    /** Options read since the last operands were skipped go below these operands. */
    method MoveDown()
      requires Running(View()) && !Fresh()
      modifies argv, `firstNonopt, `lastNonopt
      ensures View().(last := optind) == Moved(old(View()))
    {
      hide Rotated;
      if firstNonopt != lastNonopt && lastNonopt != optind {
        ghost var swaps := Exchange();
      } else if lastNonopt != optind {
        firstNonopt := optind;
      }
    }

    /** PERMUTE only: moves options just read before the skipped operands, then skips more operands. */
    method PermuteBlock()
      requires Coherent() && argv.Length > 0 && !Fresh() && AtEnd(nextchar) && ordering == Permute
      requires Running(View()) && ReachedFrom(original, View())
      modifies argv, `firstNonopt, `lastNonopt, `optind
      ensures Coherent() && !Fresh() && Goal() == old(Goal())
      ensures Running(View()) && lastNonopt == optind && ReachedFrom(original, View())
      ensures optind < argv.Length ==> !NonOption(argv[optind])
      ensures old(optind) <= optind && argv[optind..] == old(argv[..])[optind..]
      ensures Unread(View()) <= old(Unread(View()))
    {
      hide Sound, Outcome, Unread, Rotated, ReachedFrom, NonOption, ConfigOf;
      ghost var s, goal := View(), Goal();
      MovedKeepsOutcome(Cfg(), s);
      MovedKeepsOrigin(original, s);
      MoveDown();
      ghost var t := Moved(s);
      ghost var moved := t.argv;
      while optind < argv.Length && NonOption(argv[optind])
        invariant s.optind <= optind <= argv.Length && argv[..] == moved
        invariant t == State(moved, firstNonopt, optind, optind, nextchar)
        invariant Sound(Cfg(), t) && Running(t) && Outcome(Cfg(), t) == goal && Unread(t) <= Unread(s)
        invariant ReachedFrom(original, t)
      {
        SkipKeepsOutcome(Cfg(), t);
        SkipKeepsOrigin(original, t);
        optind := optind + 1;
        t := t.(last := optind, optind := optind);
      }
      lastNonopt := optind;
      SuffixOfSuffix(moved, s.argv, s.optind, optind);
    }

    /** At a "--" where an element is due: everything after it is an operand. */
    method Terminate()
      requires Running(View()) && !Fresh() && optind < argv.Length
      requires firstNonopt != lastNonopt ==> lastNonopt == optind
      modifies argv, `firstNonopt, `lastNonopt, `optind
      ensures argv[..] == Closed(old(View())).argv && firstNonopt == Closed(old(View())).first
      ensures lastNonopt == optind == argv.Length
    {
      hide Rotated;
      optind := optind + 1;
      if firstNonopt != lastNonopt && lastNonopt != optind {
        ghost var swaps := Exchange();
      } else if firstNonopt == lastNonopt {
        firstNonopt := optind;
      }
      lastNonopt := argv.Length;
      optind := argv.Length;
    }

    /** The scan is over and `argv` is arranged as the outcome `o` says. */
    ghost predicate Arranged(o: Scan)
      reads this, argv
    {
      && argv.Length > 0 && !Fresh() && Coherent() && Settled(View())
      && o.events == [] && argv[..] == o.consumed + o.operands && optind == |o.consumed|
    }

    /** The clamping and, in PERMUTE, the moving and skipping that an advance starts with. */
    method Prepare()
      requires Coherent() && argv.Length > 0 && !Fresh() && AtEnd(nextchar) && ReachedFrom(original, View())
      modifies argv, `firstNonopt, `lastNonopt, `optind
      ensures Coherent() && !Fresh() && Goal() == old(Goal()) && Running(View()) && ReachedFrom(original, View())
      ensures firstNonopt != lastNonopt ==> lastNonopt == optind
      ensures optind < argv.Length && NonOption(argv[optind]) ==> ordering != Permute && firstNonopt == lastNonopt
      ensures argv[optind..] == old(argv[..])[optind..]
      ensures Unread(View()) <= old(Unread(View()))
      ensures ordering != Permute ==> argv[..] == old(argv[..])
    {
      ghost var cfg, s := Cfg(), View();
      assert Bounded(s);
      ClampKeepsOutcome(cfg, s);
      ClampKeepsOrigin(original, s);
      hide Sound, Outcome, Unread, ReachedFrom;
      if lastNonopt > optind {
        lastNonopt := optind;
      }
      if firstNonopt > optind {
        firstNonopt := optind;
      }
      assert View() == s.(first := s.Lo(), last := s.Hi());
      if ordering == Permute {
        PermuteBlock();
      }
    }

    /** Nothing left to scan, or a "--": the scan ends, and `optind` backs over the skipped operands. */
    method Finish()
      requires Coherent() && Running(View()) && !Fresh() && AtEnd(nextchar)
      requires optind == argv.Length || argv[optind] == "--"
      requires firstNonopt != lastNonopt ==> lastNonopt == optind
      modifies argv, `firstNonopt, `lastNonopt, `optind
      ensures Arranged(old(Goal()))
      ensures ordering != Permute ==> argv[..] == old(argv[..])
    {
      ghost var cfg, s := Cfg(), View();
      assert Bounded(s) && (ordering != Permute ==> s.first == s.last);
      hide Sound, Outcome, Rotated;
      if optind != argv.Length {
        TerminatorOutcome(cfg, s);
        Terminate();
      } else {
        ExhaustedOutcome(cfg, s);
      }
      if firstNonopt != lastNonopt {
        optind := firstNonopt;
      }
      SettledIsSound(cfg, View());
    }

    /** An operand that is not permuted: stop before it, or describe it and pass it by. */
    method PassOperand() returns (r: Result)
      requires Coherent() && Running(View()) && !Fresh() && AtEnd(nextchar) && optarg == None
      requires ordering != Permute && firstNonopt == lastNonopt && optind < argv.Length && NonOption(argv[optind])
      modifies `optind, `optarg
      ensures r.Done? ==> Arranged(old(Goal())) && optarg == None
      ensures r.Got? ==> Coherent() && Running(View()) && Steps(old(Goal()), r.event, Goal())
      ensures r.Got? ==> Unread(View()) < old(Unread(View())) && optind == old(optind) + 1
      ensures r.Got? ==> r.event.NonOpt? && WellFormed(Cfg(), r.event) && optarg == Arg(r.event)
    {
      ghost var cfg, s := Cfg(), View();
      assert Bounded(s);
      hide Sound, Outcome, Steps, Unread, ConfigOf;
      if ordering == RequireOrder {
        OperandStops(cfg, s);
        SettledIsSound(cfg, s);
        return Done;
      }
      OperandReported(cfg, s);
      optarg := Some(argv[optind]);
      optind := optind + 1;
      return Got(NonOpt(argv[optind - 1]));
    }

    /** An option element is current, entered afresh or part-way through a cluster; `goal` is the scan's
        outcome and `unread` bounds what is left. */
    ghost predicate AtElement(goal: Scan, unread: nat)
      reads this, argv
    {
      && !Fresh() && ordering == Cfg().ordering && optind < argv.Length && Running(View())
      && var a, s := argv[optind], View().(nextchar := Null);
         if nextchar.To? && Sound(Cfg(), View()) && MidCluster(Cfg(), View()) then
           Goal() == goal && Unread(View()) <= unread
         else
           && Sound(Cfg(), s) && Running(s) && Outcome(Cfg(), s) == goal && Unread(s) <= unread
           && !NonOption(a) && a != "--" && LongSyntax(Cfg(), a) && nextchar == To(a[2..])
    }

    /** Moves to the next element; stops the call there unless it is an option element. */
    method Advance() returns (r: Option<Result>)
      requires Coherent() && argv.Length > 0 && !Fresh() && AtEnd(nextchar) && optarg == None
      requires ReachedFrom(original, View())
      modifies argv, `firstNonopt, `lastNonopt, `optind, `nextchar, `optarg
      ensures !Fresh()
      ensures r == Some(Done) ==> Arranged(old(Goal())) && optarg == None
      ensures r.Some? && r.value.Got? ==> Coherent() && Running(View()) && Steps(old(Goal()), r.value.event, Goal())
      ensures r.Some? && r.value.Got? ==> Unread(View()) < old(Unread(View()))
      ensures r.Some? && r.value.Got? ==>
        r.value.event.NonOpt? && WellFormed(Cfg(), r.value.event) && optarg == Arg(r.value.event)
      ensures r.None? ==> AtElement(old(Goal()), old(Unread(View()))) && optarg == None
      ensures r != Some(Done) ==> argv[optind..] == old(argv[..])[optind..] && ReachedFrom(original, View())
      ensures ordering != Permute ==> argv[..] == old(argv[..])
    {
      hide Sound, Outcome, Unread, Steps, Settled, WellFormed, Arg, ReachedFrom;
      Prepare();
      ghost var cfg, t := Cfg(), View();
      if optind == argv.Length || argv[optind] == "--" {
        Finish();
        return Some(Done);
      }
      if NonOption(argv[optind]) {
        var stop := PassOperand();
        if stop.Got? {
          SuffixOfSuffix(argv[..], old(argv[..]), optind - 1, optind);
          ReadKeepsOrigin(original, t, 1, nextchar);
        }
        return Some(stop);
      }
      nextchar := To(argv[optind][if longopts.Some? && argv[optind][1] == '-' then 2 else 1..]);
      RestartSame(cfg, t);
      ReadKeepsOrigin(original, t, 0, nextchar);
      if !LongSyntax(cfg, argv[optind]) {
        EnterCluster(cfg, t.(nextchar := Null), View());
      }
      return None;
    }

    /** The current element is a long option; `nextchar` is past its two dashes. */
    method ReadLong() returns (e: Event, ghost used: nat)
      requires longopts.Some? && optind < argv.Length && nextchar.To? && optarg == None
      modifies `optind, `nextchar, `optarg, `optopt, `longind, `flags
      ensures LongElement(longopts.value, old(nextchar).text, argv[old(optind) + 1..]) == Element([e], used)
      ensures optind == old(optind) + used && AtEnd(nextchar)
      ensures WellFormed(Cfg(), e) && optarg == Arg(e)
      ensures optopt == NewOptopt(Cfg(), e, old(optopt)) && flags == NewFlags(Cfg(), e, old(flags))
      ensures longind == NewLongind(e, old(longind))
    {
      var longs, text := longopts.value, nextchar.text;
      ghost var rest := argv[optind + 1..];
      var n := 0;
      while n < |text| && text[n] != '='
        invariant 0 <= n <= |text| && '=' !in text[..n]
      {
        n := n + 1;
      }
      IndexIsUnique(text, '=', n);
      var m := FindLong(longs, text[..n]);
      used := 1;
      match m
      case Ambiguous =>
        nextchar, optind, optopt := To(""), optind + 1, 0;
        e := Error(AmbiguousName);
      case Unrecognized =>
        nextchar, optind, optopt := To(""), optind + 1, 0;
        e := Error(UnknownName);
      case Found(i) =>
        optind := optind + 1;
        nextchar := To("");
        if n < |text| && longs[i].hasArg == NoArgument {
          optopt := longs[i].val;
          e := Error(ArgumentNotAllowed(i));
        } else if n == |text| && longs[i].hasArg == RequiredArgument && optind == argv.Length {
          optopt := longs[i].val;
          e := Error(LongArgumentMissing(i));
        } else {
          if n < |text| {
            optarg := Some(text[n + 1..]);
          } else if longs[i].hasArg == RequiredArgument {
            assert rest[0] == argv[optind];
            optarg := Some(argv[optind]);
            optind := optind + 1;
            used := 2;
          }
          longind := i;
          if longs[i].flag.Some? {
            flags := flags[longs[i].flag.value := longs[i].val];
          }
          e := LongOpt(i, optarg);
        }
    }

    /** The next character of a short-option cluster. */
    method ReadShort() returns (e: Event, ghost used: nat)
      requires optind < argv.Length && nextchar.To? && nextchar.text != "" && optarg == None
      modifies `optind, `nextchar, `optarg, `optopt
      ensures var text, rest := old(nextchar).text, argv[old(optind) + 1..];
        if used == 0 then
          nextchar == To(text[1..]) && |text| > 1
          && Cluster(Cfg().shorts, text, rest) == After(e, Cluster(Cfg().shorts, text[1..], rest))
        else AtEnd(nextchar) && Cluster(Cfg().shorts, text, rest) == Element([e], used)
      ensures optind == old(optind) + used
      ensures WellFormed(Cfg(), e) && optarg == Arg(e) && optopt == NewOptopt(Cfg(), e, old(optopt))
      ensures !e.LongOpt? && flags == NewFlags(Cfg(), e, flags)
    {
      ghost var rest := argv[optind + 1..];
      var shorts := WithoutSign(optstring);
      var c, tail := nextchar.text[0], nextchar.text[1..];
      nextchar := To(tail);
      used := if tail == "" then 1 else 0;
      if tail == "" {
        optind := optind + 1;
      }
      match KindOf(shorts, c)
      case Invalid =>
        optopt := c as int;
        e := Error(UnknownChar(c));
      case Takes(NoArgument) =>
        e := ShortOpt(c, None);
      case Takes(OptionalArgument) =>
        if tail != "" {
          optarg := Some(tail);
          optind, used := optind + 1, 1;
        }
        nextchar := Null;
        e := ShortOpt(c, optarg);
      case Takes(RequiredArgument) =>
        if tail != "" {
          optarg := Some(tail);
          optind, used := optind + 1, 1;
          e := ShortOpt(c, optarg);
        } else if optind == argv.Length {
          optopt := c as int;
          e := Error(ShortArgumentMissing(c));
        } else {
          assert rest[0] == argv[optind];
          optarg := Some(argv[optind]);
          optind, used := optind + 1, 2;
          e := ShortOpt(c, optarg);
        }
        nextchar := Null;
    }

    method DecodeLong(ghost goal: Scan, ghost unread: nat) returns (e: Event)
      requires AtElement(goal, unread) && optarg == None && LongSyntax(Cfg(), argv[optind])
      modifies `optind, `nextchar, `optarg, `optopt, `longind, `flags
      ensures Coherent() && !Fresh() && Running(View()) && Steps(goal, e, Goal()) && Unread(View()) < unread
      ensures old(optind) <= optind
      ensures WellFormed(Cfg(), e) && optarg == Arg(e)
      ensures optopt == NewOptopt(Cfg(), e, old(optopt)) && flags == NewFlags(Cfg(), e, old(flags))
      ensures longind == NewLongind(e, old(longind))
    {
      ghost var cfg, s := Cfg(), View().(nextchar := Null);
      assert Sound(cfg, s) && Running(s);
      hide Sound, MidCluster, Outcome, Unread, Steps, LongElement, WellFormed, Arg, NewOptopt, NewFlags, NonOption;
      ghost var used;
      e, used := ReadLong();
      LongSteps(cfg, s, e, used, View());
    }

    method DecodeShort(ghost goal: Scan, ghost unread: nat) returns (e: Event)
      requires argv.Length > 0 && Coherent() && !Fresh() && optarg == None && MidCluster(Cfg(), View())
      requires Goal() == goal && Unread(View()) <= unread
      modifies `optind, `nextchar, `optarg, `optopt
      ensures Coherent() && !Fresh() && Running(View()) && Steps(goal, e, Goal()) && Unread(View()) < unread
      ensures old(optind) <= optind
      ensures WellFormed(Cfg(), e) && optarg == Arg(e)
      ensures optopt == NewOptopt(Cfg(), e, old(optopt)) && flags == NewFlags(Cfg(), e, flags)
      ensures !e.LongOpt?
    {
      ghost var cfg, s := Cfg(), View();
      assert nextchar.text != "";
      hide Sound, MidCluster, Outcome, Unread, Steps, Cluster;
      hide WellFormed, Arg, NewOptopt, NewFlags, ConfigOf, NonOption;
      ghost var used;
      ghost var rest := argv[optind + 1..];
      assert rest == s.argv[s.optind + 1..];
      e, used := ReadShort();
      assert View() == s.(optind := s.optind + used, nextchar := nextchar);
      ShortSteps(cfg, s, e, used, View());
    }

    /** Decodes the current option element, or the next character of it. */
    method ReadElement(ghost goal: Scan, ghost unread: nat) returns (e: Event)
      requires AtElement(goal, unread) && optarg == None && ReachedFrom(original, View())
      modifies `optind, `nextchar, `optarg, `optopt, `longind, `flags
      ensures Coherent() && !Fresh() && Running(View()) && Steps(goal, e, Goal()) && Unread(View()) < unread
      ensures old(optind) <= optind && ReachedFrom(original, View())
      ensures WellFormed(Cfg(), e) && optarg == Arg(e)
      ensures optopt == NewOptopt(Cfg(), e, old(optopt)) && flags == NewFlags(Cfg(), e, old(flags))
      ensures longind == NewLongind(e, old(longind))
    {
      hide Sound, Outcome, Unread, Steps, WellFormed, Arg, NewOptopt, NewFlags, ReachedFrom;
      ghost var now := View();
      if longopts.Some? && argv[optind][1] == '-' {
        e := DecodeLong(goal, unread);
      } else {
        e := DecodeShort(goal, unread);
      }
      ReadKeepsOrigin(original, now, optind - now.optind, nextchar);
    }

    /** The first call sets the scanner up; later ones leave it as it is. */
    method Begin()
      requires Valid() && argv.Length > 0
      modifies this
      ensures !Fresh() && Valid() && View() == old(View()) && optarg == None
      ensures original == if old(Fresh()) then old(argv[..]) else old(original)
      ensures flags == old(flags) && optopt == old(optopt) && longind == old(longind)
    {
      optarg := None;
      if optind == 0 || !initialized {
        if optind == 0 {
          optind := 1;
        }
        Initialize();
        ReachedFromItself(View());
      }
    }

    /** A call on a scanner that is set up. */
    method Continue() returns (r: Result)
      requires Valid() && argv.Length > 0 && !Fresh() && optarg == None
      modifies argv, `firstNonopt, `lastNonopt, `optind, `nextchar, `optarg, `optopt, `longind, `flags
      ensures Coherent() && !Fresh()
      ensures r.Done? ==> Arranged(old(Goal())) && optarg == None
      ensures r.Got? ==> Running(View()) && Steps(old(Goal()), r.event, Goal())
      ensures r.Got? ==> Unread(View()) < old(Unread(View())) && ReachedFrom(original, View())
      ensures r.Got? ==> argv[optind..] == old(argv[..])[optind..]
      ensures r.Got? ==> WellFormed(Cfg(), r.event) && optarg == Arg(r.event)
      ensures r.Got? ==> optopt == NewOptopt(Cfg(), r.event, old(optopt))
      ensures r.Got? ==> flags == NewFlags(Cfg(), r.event, old(flags))
      ensures r.Got? ==> longind == NewLongind(r.event, old(longind))
      ensures r.Done? ==> optopt == old(optopt) && flags == old(flags) && longind == old(longind)
      ensures ordering != Permute ==> argv[..] == old(argv[..])
    {
      ghost var goal, unread := Goal(), Unread(View());
      assert !AtEnd(nextchar) ==> AtElement(goal, unread);
      hide Sound, Bounded, MidCluster, Outcome, Unread, Steps, Settled, ReachedFrom;
      hide WellFormed, Arg, NewOptopt, NewFlags, ConfigOf, LongSyntax, NonOption;
      if nextchar.Null? || nextchar.text == "" {
        var stop := Advance();
        if stop.Some? {
          return stop.value;
        }
      }
      ghost var o, now := optind, argv[..];
      var e := ReadElement(goal, unread);
      SuffixOfSuffix(now, old(argv[..]), o, optind);
      return Got(e);
    }

    /** At the end of a scan: what comes next starts from the array as it is now. */
    ghost method Rebase()
      requires !Fresh() && Bounded(View()) && Settled(View())
      modifies `original
      ensures original == argv[..] && ReachedFrom(original, View())
    {
      original := argv[..];
      ReachedFromItself(View());
    }

    /** One call of the scanner. */
    method Next() returns (r: Result)
      requires Valid()
      modifies this, argv
      ensures Valid()
      ensures argv.Length == 0 ==> r.Done? && argv[..] == old(argv[..]) && optind == old(optind)
      ensures argv.Length > 0 && r.Done? ==> Arranged(old(Goal())) && optarg == None
      ensures argv.Length > 0 && r.Got? ==> !Fresh() && Running(View()) && Steps(old(Goal()), r.event, Goal())
      ensures argv.Length > 0 && r.Got? ==> Unread(View()) < old(Unread(View()))
      ensures r.Got? ==> argv[optind..] == old(argv[..])[optind..]
      ensures r.Got? ==> WellFormed(Cfg(), r.event) && optarg == Arg(r.event)
      ensures r.Got? ==> optopt == NewOptopt(Cfg(), r.event, old(optopt))
      ensures r.Got? ==> flags == NewFlags(Cfg(), r.event, old(flags))
      ensures r.Got? ==> longind == NewLongind(r.event, old(longind))
      ensures r.Done? ==> optopt == old(optopt) && flags == old(flags) && longind == old(longind)
      ensures Cfg().ordering != Permute ==> argv[..] == old(argv[..])
      ensures argv.Length > 0 ==>
        original == if r.Done? then argv[..] else if old(Fresh()) then old(argv[..]) else old(original)
    {
      if argv.Length < 1 {
        return Done;
      }
      hide Sound, Outcome, Steps, Settled, WellFormed, Arg, NewOptopt, NewFlags, ConfigOf;
      hide ReachedFrom;
      Begin();
      r := Continue();
      if r.Done? {
        Rebase();
      }
    }
  }
}
