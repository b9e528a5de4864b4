/** The scanner's state as a value, and the outcome of the whole scan that it stands for. */
module ScanState {
  import opened Rotation
  import opened ScanLaws
  import opened ScanSpec

  /** A `char *` into an element: null, or the text from there to the terminating NUL. */
  datatype CharPtr = Null | To(text: string)

  predicate AtEnd(p: CharPtr) {
    p.Null? || p.text == ""
  }

  datatype State = State(argv: seq<string>, first: nat, last: nat, optind: nat, nextchar: CharPtr) {
    /** The window of skipped operands, clamped to `optind` as every advance clamps it. */
    function Lo(): nat { if first > optind then optind else first }
    function Hi(): nat { if last > optind then optind else last }
  }

  ghost predicate Bounded(s: State) {
    && 1 <= s.optind <= |s.argv| && 1 <= s.first <= |s.argv| && 1 <= s.last <= |s.argv|
    && s.Lo() <= s.Hi()
  }

  /** The unread characters are a proper suffix of the current element, a short-option cluster. */
  ghost predicate MidCluster(cfg: Config, s: State) {
    && s.first <= s.last <= s.optind < |s.argv| && s.nextchar.To?
    && var a, text := s.argv[s.optind], s.nextchar.text;
       && !NonOption(a) && !LongSyntax(cfg, a)
       && 0 < |text| < |a| && a[|a| - |text|..] == text
  }

  predicate AllNonOptions(window: seq<string>) {
    forall a :: a in window ==> NonOption(a)
  }

  /** Between calls: the window holds skipped operands only, and none unless permuting. */
  ghost predicate Sound(cfg: Config, s: State) {
    && Bounded(s)
    && (cfg.ordering != Permute ==> s.Lo() == s.Hi())
    && AllNonOptions(s.argv[s.Lo()..s.Hi()])
    && (!AtEnd(s.nextchar) ==> MidCluster(cfg, s))
  }

  /** Between two calls that found something: the window lies in order below `optind`. */
  ghost predicate Running(s: State) {
    1 <= s.first <= s.last <= s.optind <= |s.argv|
  }

  /** Nothing is skipped and nothing is half read, as when the scan has ended. */
  ghost predicate Settled(s: State) {
    AtEnd(s.nextchar) && s.Lo() == s.Hi()
  }

  /** What the unread part still has to give. */
  ghost function Pending(cfg: Config, s: State): Scan
    requires Sound(cfg, s)
  {
    if AtEnd(s.nextchar) then ScanAll(cfg, s.argv[s.optind..])
    else Joined(cfg, Cluster(cfg.shorts, s.nextchar.text, s.argv[s.optind + 1..]), s.argv[s.optind..])
  }

  /** The elements read so far, and the skipped operands, in the order of the array. */
  ghost function Taken(s: State): seq<string>
    requires Bounded(s)
  {
    s.argv[..s.Lo()] + s.argv[s.Hi()..s.optind]
  }

  ghost function Held(s: State): seq<string>
    requires Bounded(s)
  {
    s.argv[s.Lo()..s.Hi()]
  }

  /** `p` for the unread part, put together with what the state already holds: consumed elements
      below and above the window, skipped operands inside it. */
  ghost function Assembled(s: State, p: Scan): Scan
    requires Bounded(s)
  {
    p.(consumed := Taken(s) + p.consumed, operands := Held(s) + p.operands)
  }

  ghost function Outcome(cfg: Config, s: State): Scan
    requires Sound(cfg, s)
  {
    Assembled(s, Pending(cfg, s))
  }

  /** Reporting `e` takes it off the front of the outcome and leaves the rest as it was. */
  ghost predicate Steps(o: Scan, e: Event, o': Scan) {
    o == o'.(events := [e] + o'.events)
  }

  // ----- unread material

  function Weight(args: seq<string>): nat {
    if args == [] then 0 else 1 + |args[0]| + Weight(args[1..])
  }

  /** Unread characters plus unread elements. */
  ghost function Unread(s: State): nat
    requires s.optind <= |s.argv|
  {
    if AtEnd(s.nextchar) || s.optind == |s.argv| then Weight(s.argv[s.optind..])
    else |s.nextchar.text| + Weight(s.argv[s.optind + 1..])
  }

  lemma {:induction false} WeightOfSuffix(args: seq<string>, k: nat)
    requires k <= |args|
    ensures Weight(args[k..]) + k <= Weight(args)
  {
    if k > 0 {
      WeightOfSuffix(args[1..], k - 1);
      assert args[1..][k - 1..] == args[k..];
    } else {
      assert args[0..] == args;
    }
  }

  // ----- each way the state moves keeps the outcome

  /** Giving the window rational values when `optind` is below it, as an advance first does. */
  lemma ClampKeepsOutcome(cfg: Config, s: State)
    requires Sound(cfg, s) && AtEnd(s.nextchar)
    ensures var t := s.(first := s.Lo(), last := s.Hi());
      Sound(cfg, t) && Running(t) && Outcome(cfg, t) == Outcome(cfg, s) && Unread(t) == Unread(s)
      && (cfg.ordering != Permute ==> t.first == t.last)
  {}

  /** PERMUTE, before looking for more operands: options read since the window are moved below it. */
  function Moved(s: State): (t: State)
    requires Running(s)
  {
    if s.first != s.last && s.last != s.optind then
      s.(argv := Rotated(s.argv, s.first, s.last, s.optind), first := s.first + (s.optind - s.last), last := s.optind)
    else if s.last != s.optind then
      s.(first := s.optind, last := s.optind)
    else s
  }

  lemma ExchangedParts(argv: seq<string>, first: nat, last: nat, optind: nat)
    requires first <= last <= optind <= |argv|
    ensures var t, k := Rotated(argv, first, last, optind), first + (optind - last);
      && t[..k] + t[optind..optind] == argv[..first] + argv[last..optind]
      && t[k..optind] == argv[first..last] && t[optind..] == argv[optind..]
  {
    WhereBlocksAre(argv, first, last, optind);
    var t, k := Rotated(argv, first, last, optind), first + (optind - last);
    hide Rotated;
    assert t[..k] == t[..first] + t[first..k];
  }

  lemma RelocatedParts(argv: seq<string>, first: nat, optind: nat)
    requires first <= optind <= |argv|
    ensures argv[..first] + argv[first..optind] == argv[..optind] + argv[optind..optind]
    ensures argv[first..first] == argv[optind..optind]
  {}

  lemma MovedKeepsOutcome(cfg: Config, s: State)
    requires Sound(cfg, s) && AtEnd(s.nextchar) && cfg.ordering == Permute && Running(s)
    ensures var t := Moved(s);
      && Sound(cfg, t) && Running(t) && t.last == t.optind == s.optind && |t.argv| == |s.argv|
      && t.argv[s.optind..] == s.argv[s.optind..]
      && Outcome(cfg, t) == Outcome(cfg, s) && Unread(t) == Unread(s)
  {
    ExchangedParts(s.argv, s.first, s.last, s.optind);
    RelocatedParts(s.argv, s.first, s.optind);
    hide Rotated, ScanAll, Weight;
  }

  lemma SkipKeepsOutcome(cfg: Config, s: State)
    requires Sound(cfg, s) && AtEnd(s.nextchar) && cfg.ordering == Permute
    requires s.first <= s.last == s.optind < |s.argv| && NonOption(s.argv[s.optind])
    ensures var s' := s.(last := s.optind + 1, optind := s.optind + 1);
      Sound(cfg, s') && Outcome(cfg, s') == Outcome(cfg, s) && Unread(s') < Unread(s)
  {
    var s' := s.(last := s.optind + 1, optind := s.optind + 1);
    var args := s.argv[s.optind..];
    assert args[1..] == s.argv[s.optind + 1..];
    assert s.argv[..s.first] + s.argv[s.optind..s.optind] == s'.argv[..s.first] + s'.argv[s'.optind..s'.optind];
    assert s.argv[s.first..s.optind] + args[..1] == s'.argv[s.first..s'.optind];
    var r := ScanAll(cfg, args[1..]);
    assert s.argv[s.first..s.optind] + (args[..1] + r.operands) == s'.argv[s.first..s'.optind] + r.operands;
  }

  lemma ConsumeLightens(s: State, used: nat, p: CharPtr)
    requires 1 <= used <= |s.argv| - s.optind && AtEnd(p)
    ensures var s' := s.(optind := s.optind + used, nextchar := p);
      && Unread(s') + |s.argv[s.optind]| < Unread(s.(nextchar := Null))
      && Unread(s') <= Weight(s.argv[s.optind + 1..])
  {
    var args := s.argv[s.optind..];
    assert args[1..] == s.argv[s.optind + 1..];
    WeightOfSuffix(args[1..], used - 1);
    assert args[1..][used - 1..] == s.argv[s.optind + used..];
  }

  /** Ending an element whose one remaining event is `e` and that takes `used` elements. */
  lemma ConsumeSteps(cfg: Config, s: State, e: Event, used: nat, p: CharPtr)
    requires Bounded(s) && Running(s) && 1 <= used <= |s.argv| - s.optind && AtEnd(p)
    requires (cfg.ordering != Permute ==> s.first == s.last) && AllNonOptions(s.argv[s.first..s.last])
    ensures var s' := s.(optind := s.optind + used, nextchar := p);
      && Sound(cfg, s') && Running(s')
      && Steps(Assembled(s, Joined(cfg, Element([e], used), s.argv[s.optind..])), e, Outcome(cfg, s'))
  {
    var s' := s.(optind := s.optind + used, nextchar := p);
    var args := s.argv[s.optind..];
    var r := ScanAll(cfg, args[used..]);
    assert args[used..] == s.argv[s'.optind..];
    hide ScanAll;
    assert s.argv[s.last..s.optind] + args[..used] == s.argv[s.last..s'.optind];
    assert s.argv[..s.first] + s.argv[s.last..s.optind] + (args[..used] + r.consumed)
        == s.argv[..s.first] + s.argv[s.last..s'.optind] + r.consumed;
  }

  lemma JoinedAfter(cfg: Config, e: Event, el: Element, args: seq<string>)
    requires 1 <= el.used <= |args|
    ensures Steps(Joined(cfg, After(e, el), args), e, Joined(cfg, el, args))
  {}

  lemma SuffixTail(a: string, text: string)
    requires 0 < |text| < |a| && a[|a| - |text|..] == text
    ensures a[|a| - (|text| - 1)..] == text[1..]
  {}

  /** Going one character further in a cluster. */
  lemma ResumeSteps(cfg: Config, s: State, e: Event, t: State)
    requires Sound(cfg, s) && MidCluster(cfg, s) && |s.nextchar.text| > 1
    requires var text, rest := s.nextchar.text, s.argv[s.optind + 1..];
      Cluster(cfg.shorts, text, rest) == After(e, Cluster(cfg.shorts, text[1..], rest))
    requires t == s.(nextchar := To(s.nextchar.text[1..]))
    ensures Sound(cfg, t) && Running(t) && Steps(Outcome(cfg, s), e, Outcome(cfg, t)) && Unread(t) < Unread(s)
  {
    SuffixTail(s.argv[s.optind], s.nextchar.text);
    assert MidCluster(cfg, t);
    var c := Cluster(cfg.shorts, t.nextchar.text, s.argv[s.optind + 1..]);
    hide Cluster, ScanAll;
    JoinedAfter(cfg, e, c, s.argv[s.optind..]);
    assert Steps(Pending(cfg, s), e, Pending(cfg, t));
  }

  /** A cluster character has been read, either way. */
  lemma ShortSteps(cfg: Config, s: State, e: Event, used: nat, t: State)
    requires Sound(cfg, s) && MidCluster(cfg, s)
    requires t == s.(optind := s.optind + used, nextchar := t.nextchar)
    requires var text, rest := s.nextchar.text, s.argv[s.optind + 1..];
      if used == 0 then
        && t.nextchar == To(text[1..]) && |text| > 1
        && Cluster(cfg.shorts, text, rest) == After(e, Cluster(cfg.shorts, text[1..], rest))
      else AtEnd(t.nextchar) && Cluster(cfg.shorts, text, rest) == Element([e], used)
    ensures Sound(cfg, t) && Running(t) && Steps(Outcome(cfg, s), e, Outcome(cfg, t)) && Unread(t) < Unread(s)
  {
    hide Sound, Outcome, Unread, Steps, Cluster;
    if used == 0 {
      ResumeSteps(cfg, s, e, t);
    } else {
      ClusterEnds(cfg, s, e, used, t);
    }
  }

  /** `s` stands before a short-option element; `t` has moved past its dash. */
  lemma EnterCluster(cfg: Config, s: State, t: State)
    requires Sound(cfg, s) && Running(s) && s.nextchar.Null? && s.optind < |s.argv|
    requires !NonOption(s.argv[s.optind]) && s.argv[s.optind] != "--" && !LongSyntax(cfg, s.argv[s.optind])
    requires t == s.(nextchar := To(s.argv[s.optind][1..]))
    ensures Sound(cfg, t) && MidCluster(cfg, t) && Outcome(cfg, t) == Outcome(cfg, s) && Unread(t) < Unread(s)
  {
    var args := s.argv[s.optind..];
    assert args[0] == s.argv[s.optind] && args[1..] == s.argv[s.optind + 1..];
  }

  /** A long-option element has been read: `e`, taking `used` elements. */
  lemma LongSteps(cfg: Config, s: State, e: Event, used: nat, t: State)
    requires Sound(cfg, s) && Running(s) && s.nextchar.Null? && s.optind < |s.argv|
    requires !NonOption(s.argv[s.optind]) && s.argv[s.optind] != "--" && LongSyntax(cfg, s.argv[s.optind])
    requires LongElement(cfg.longs.value, s.argv[s.optind][2..], s.argv[s.optind + 1..]) == Element([e], used)
    requires AtEnd(t.nextchar) && t == s.(optind := s.optind + used, nextchar := t.nextchar)
    ensures Sound(cfg, t) && Running(t) && Steps(Outcome(cfg, s), e, Outcome(cfg, t)) && Unread(t) < Unread(s)
  {
    var args := s.argv[s.optind..];
    assert args[0] == s.argv[s.optind] && args[1..] == s.argv[s.optind + 1..];
    assert used <= |args|;
    ConsumeSteps(cfg, s, e, used, t.nextchar);
    ConsumeLightens(s, used, t.nextchar);
  }

  /** The last event of a cluster has been read: `e`, with `used` elements taken in all. */
  lemma ClusterEnds(cfg: Config, s: State, e: Event, used: nat, t: State)
    requires Sound(cfg, s) && MidCluster(cfg, s)
    requires Cluster(cfg.shorts, s.nextchar.text, s.argv[s.optind + 1..]) == Element([e], used)
    requires AtEnd(t.nextchar) && t == s.(optind := s.optind + used, nextchar := t.nextchar)
    ensures Sound(cfg, t) && Running(t) && Steps(Outcome(cfg, s), e, Outcome(cfg, t)) && Unread(t) < Unread(s)
  {
    hide ScanAll, Joined, Cluster;
    ConsumeSteps(cfg, s, e, used, t.nextchar);
    ConsumeLightens(s, used, t.nextchar);
  }

  /** At a "--" where an element is due, after stepping over it and moving it below the window. */
  function Closed(s: State): (t: State)
    requires Running(s) && s.optind < |s.argv|
  {
    if s.first == s.last then s.(first := s.optind + 1)
    else s.(argv := Rotated(s.argv, s.first, s.last, s.optind + 1), first := s.first + (s.optind + 1 - s.last))
  }

  lemma PendingAtTerminator(cfg: Config, s: State)
    requires Sound(cfg, s) && AtEnd(s.nextchar) && s.optind < |s.argv| && s.argv[s.optind] == "--"
    ensures Pending(cfg, s) == Scan([], ["--"], s.argv[s.optind + 1..], true)
  {}

  lemma TerminatorUnskipped(argv: seq<string>, first: nat, optind: nat)
    requires first <= optind < |argv| && argv[optind] == "--"
    ensures argv == (argv[..first] + argv[first..optind] + ["--"]) + ([] + argv[optind + 1..])
  {}

  lemma TerminatorSkipped(argv: seq<string>, first: nat, optind: nat)
    requires first <= optind < |argv| && argv[optind] == "--"
    ensures Rotated(argv, first, optind, optind + 1)
         == (argv[..first] + [] + ["--"]) + (argv[first..optind] + argv[optind + 1..])
  {}

  lemma AssembledAtTerminator(s: State)
    requires Bounded(s) && Running(s) && s.optind < |s.argv| && s.argv[s.optind] == "--"
    requires s.first != s.last ==> s.last == s.optind
    ensures var o, t := Assembled(s, Scan([], ["--"], s.argv[s.optind + 1..], true)), Closed(s);
      t.argv == o.consumed + o.operands && t.first == |o.consumed|
  {
    hide Rotated;
    if s.first == s.last {
      TerminatorUnskipped(s.argv, s.first, s.optind);
      assert s.argv[s.first..s.last] == [];
    } else {
      TerminatorSkipped(s.argv, s.first, s.optind);
      assert s.argv[s.last..s.optind] == [];
    }
  }

  /** The "--" ends the scan: the array is then arranged, with the operands from the new `first` on. */
  lemma TerminatorOutcome(cfg: Config, s: State)
    requires Sound(cfg, s) && AtEnd(s.nextchar) && Running(s) && s.optind < |s.argv|
    requires s.argv[s.optind] == "--" && (s.first != s.last ==> s.last == s.optind)
    ensures var o, t := Outcome(cfg, s), Closed(s);
      o.events == [] && t.argv == o.consumed + o.operands && t.first == |o.consumed|
  {
    PendingAtTerminator(cfg, s);
    AssembledAtTerminator(s);
    hide Pending, Closed;
  }

  /** Nothing left to read: the array already is consumed elements, then operands. */
  lemma ExhaustedOutcome(cfg: Config, s: State)
    requires Sound(cfg, s) && AtEnd(s.nextchar) && s.optind == |s.argv|
    requires Running(s) && (s.first != s.last ==> s.last == s.optind)
    ensures var o := Outcome(cfg, s);
      o.events == [] && s.argv == o.consumed + o.operands
      && |o.consumed| == if s.first == s.last then s.optind else s.first
  {}

  lemma SettledIsSound(cfg: Config, s: State)
    requires AtEnd(s.nextchar) && Bounded(s) && s.Lo() == s.Hi()
    ensures Sound(cfg, s) && Settled(s)
  {}

  lemma RestartSame(cfg: Config, s: State)
    requires Sound(cfg, s) && AtEnd(s.nextchar)
    ensures var t := s.(nextchar := Null);
      Sound(cfg, t) && Outcome(cfg, t) == Outcome(cfg, s) && Unread(t) == Unread(s)
  {}

  /** REQUIRE_ORDER stops before a first operand. */
  lemma OperandStops(cfg: Config, s: State)
    requires Sound(cfg, s) && AtEnd(s.nextchar) && s.first == s.last <= s.optind < |s.argv|
    requires NonOption(s.argv[s.optind]) && cfg.ordering == RequireOrder
    ensures var o := Outcome(cfg, s);
      o.events == [] && s.argv == o.consumed + o.operands && |o.consumed| == s.optind
  {
    assert s.argv[s.optind..][0] == s.argv[s.optind];
    assert s.argv[..s.first] + s.argv[s.last..s.optind] == s.argv[..s.optind];
  }

  lemma ScanOfReported(cfg: Config, a: string, more: seq<string>)
    requires NonOption(a) && cfg.ordering == ReturnInOrder
    ensures var r := ScanAll(cfg, more);
      ScanAll(cfg, [a] + more) == r.(events := [NonOpt(a)] + r.events, consumed := [a] + r.consumed)
    ensures Weight([a] + more) == 1 + |a| + Weight(more)
  {}

  /** RETURN_IN_ORDER reports an operand and passes it by. */
  lemma OperandReported(cfg: Config, s: State)
    requires Sound(cfg, s) && AtEnd(s.nextchar) && s.first == s.last <= s.optind < |s.argv|
    requires NonOption(s.argv[s.optind]) && cfg.ordering == ReturnInOrder
    ensures var s' := s.(optind := s.optind + 1);
      && Sound(cfg, s') && Steps(Outcome(cfg, s), NonOpt(s.argv[s.optind]), Outcome(cfg, s'))
      && Unread(s') < Unread(s)
  {
    var argv, a, more := s.argv, s.argv[s.optind], s.argv[s.optind + 1..];
    assert argv[s.optind..] == [a] + more;
    ScanOfReported(cfg, a, more);
    var r := ScanAll(cfg, more);
    hide ScanAll, NonOption, Weight;
    assert argv[s.last..s.optind + 1] == argv[s.last..s.optind] + [a];
    assert argv[..s.first] + argv[s.last..s.optind] + ([a] + r.consumed)
        == argv[..s.first] + (argv[s.last..s.optind] + [a]) + r.consumed;
  }

  // ----- where the elements have come from

  /** `s` was reached from the arguments `args`: what it has read and what it has skipped are the first
      elements of `args`, each in their old order, and the rest is as it was. */
  ghost predicate ReachedFrom(args: seq<string>, s: State) {
    && Bounded(s) && |args| == |s.argv| && s.argv[s.optind..] == args[s.optind..]
    && Taken(s)[0] == args[0] && Shuffle(Taken(s)[1..], Held(s), args[1..s.optind])
  }

  /** With an empty window everything stands where it stood. */
  lemma ReachedFromItself(s: State)
    requires Bounded(s) && s.Lo() == s.Hi()
    ensures ReachedFrom(s.argv, s)
  {
    var front := s.argv[1..s.optind];
    ShuffleFirst(front, [], [], []);
    assert front + [] == front;
    assert Taken(s) == s.argv[..s.optind] && Taken(s)[1..] == front && Held(s) == [];
  }

  lemma ClampKeepsOrigin(args: seq<string>, s: State)
    requires ReachedFrom(args, s)
    ensures ReachedFrom(args, s.(first := s.Lo(), last := s.Hi()))
  {}

  lemma MovedKeepsOrigin(args: seq<string>, s: State)
    requires ReachedFrom(args, s) && Running(s)
    ensures ReachedFrom(args, Moved(s))
  {
    ExchangedParts(s.argv, s.first, s.last, s.optind);
    RelocatedParts(s.argv, s.first, s.optind);
    hide Rotated, Shuffle;
  }

  lemma NextElements(argv: seq<string>, args: seq<string>, optind: nat, used: nat)
    requires 1 <= optind && optind + used <= |argv| == |args| && argv[optind..] == args[optind..]
    ensures args[1..optind + used] == args[1..optind] + argv[optind..optind + used]
    ensures argv[optind + used..] == args[optind + used..]
  {}

  lemma SkipKeepsOrigin(args: seq<string>, s: State)
    requires ReachedFrom(args, s) && s.first <= s.last == s.optind < |s.argv|
    ensures ReachedFrom(args, s.(last := s.optind + 1, optind := s.optind + 1))
  {
    var s' := s.(last := s.optind + 1, optind := s.optind + 1);
    var next := s.argv[s.optind..s.optind + 1];
    ShuffleCommutes(Taken(s)[1..], Held(s), args[1..s.optind]);
    ShuffleLast(Held(s), Taken(s)[1..], args[1..s.optind], next);
    ShuffleCommutes(Held(s) + next, Taken(s)[1..], args[1..s.optind] + next);
    NextElements(s.argv, args, s.optind, 1);
    hide Shuffle;
    assert s'.argv[s.first..s'.optind] == s.argv[s.first..s.optind] + next;
    assert s'.argv[..s.first] + s'.argv[s'.optind..s'.optind] == s.argv[..s.first] + s.argv[s.optind..s.optind];
    assert Held(s') == Held(s) + next && Taken(s') == Taken(s);
    hide Taken, Held;
  }

  lemma ReadKeepsOrigin(args: seq<string>, s: State, used: nat, p: CharPtr)
    requires ReachedFrom(args, s) && Running(s) && s.optind + used <= |s.argv|
    ensures ReachedFrom(args, s.(optind := s.optind + used, nextchar := p))
  {
    var s' := s.(optind := s.optind + used, nextchar := p);
    var next := s.argv[s.optind..s'.optind];
    ShuffleLast(Taken(s)[1..], Held(s), args[1..s.optind], next);
    NextElements(s.argv, args, s.optind, used);
    assert Taken(s') == Taken(s) + next && Held(s') == Held(s);
    hide Taken, Held, Shuffle;
    assert Taken(s')[1..] == Taken(s)[1..] + next;
  }

  lemma OutcomeBegins(cfg: Config, s: State)
    requires Sound(cfg, s)
    ensures Taken(s) <= Outcome(cfg, s).consumed && Held(s) <= Outcome(cfg, s).operands
  {}
}
