/** Calling the scanner some of the way, until it is done, and any number of times after that. */
module WholeRun {
  import opened Wrappers
  import opened OptionTable
  import opened ScanSpec
  import opened ScanLaws
  import opened ScanState
  import opened Getopt

  lemma FreshOutcome(cfg: Config, s: State)
    requires Sound(cfg, s) && s == State(s.argv, s.optind, s.optind, s.optind, Null)
    ensures Outcome(cfg, s) == Resumed(cfg, s.argv, s.optind)
  {}

  /** The outcome of a scan that takes up `argv` at `optind`, with nothing skipped before. */
  function Resumed(cfg: Config, argv: seq<string>, optind: nat): Scan
    requires optind <= |argv|
  {
    var r := ScanAll(cfg, argv[optind..]);
    r.(consumed := argv[..optind] + r.consumed)
  }

  /** A first call starts at `optind`, or at element 1 if the caller has set it to 0 to start again. */
  lemma FirstCallGoal(g: Scanner)
    requires g.Valid() && g.argv.Length > 0 && g.Fresh()
    ensures g.optind <= g.argv.Length
    ensures g.Goal() == Resumed(g.Cfg(), g.argv[..], if g.optind == 0 then 1 else g.optind)
  {
    FreshOutcome(g.Cfg(), g.View());
    hide ScanAll;
  }

  lemma Regroup(a: seq<Event>, e: Event, b: seq<Event>)
    ensures a + ([e] + b) == (a + [e]) + b
  {}

  /** The loop every caller writes: call until done, collecting what is reported. */
  method ScanToEnd(g: Scanner) returns (events: seq<Event>)
    requires g.Valid() && g.argv.Length > 0
    modifies g, g.argv
    ensures events == old(g.Goal()).events
    ensures g.Valid() && g.Arranged(old(g.Goal()).(events := []))
    ensures g.Cfg().ordering != Permute ==> g.argv[..] == old(g.argv[..])
  {
    ghost var goal := g.Goal();
    events := [];
    hide Outcome, Sound, Unread, WellFormed, Arg, NewOptopt, NewFlags, ConfigOf;
    while true
      invariant g.Valid() && goal == g.Goal().(events := events + g.Goal().events)
      invariant g.Cfg().ordering != Permute ==> g.argv[..] == old(g.argv[..])
      decreases Unread(g.View())
    {
      ghost var now := g.Goal();
      var r := g.Next();
      if r.Done? {
        assert goal.(events := []) == now;
        return;
      }
      Regroup(events, r.event, g.Goal().events);
      events := events + [r.event];
    }
  }

  /** A whole run from the start, in terms of the arguments alone. */
  method RunFromStart(argv: array<string>, optstring: string, longopts: Option<seq<LongOption>>, posixlyCorrect: bool)
    returns (events: seq<Event>, optind: nat)
    requires argv.Length > 0 && NoLongW(WithoutSign(optstring))
    modifies argv
    ensures var cfg := ConfigOf(optstring, longopts, posixlyCorrect);
      var r := ScanAll(cfg, old(argv[..])[1..]);
      && events == r.events
      && argv[..] == old(argv[..])[..1] + r.consumed + r.operands
      && optind == 1 + |r.consumed| && argv[optind..] == r.operands
      && (cfg.ordering != Permute ==> argv[..] == old(argv[..]))
  {
    var g := new Scanner(argv, optstring, longopts, posixlyCorrect);
    FreshOutcome(g.Cfg(), g.View());
    events := ScanToEnd(g);
    optind := g.optind;
    ghost var r := ScanAll(g.Cfg(), old(argv[..])[1..]);
    assert argv[..] == old(argv[..])[..1] + r.consumed + r.operands;
    assert argv[..][optind..] == r.operands;
  }

  // ----- part of the way

  /** The state after some calls of a scan of `args`: the elements read and the operands skipped so far are
      the first of those the whole scan will give, and together are a stretch of `args` with each in its old
      order; everything after that stretch is as it was. */
  ghost predicate PartWay(cfg: Config, args: seq<string>, s: State)
    requires args != []
  {
    var r := ScanAll(cfg, args[1..]);
    ReachedFrom(args, s) && Taken(s) <= args[..1] + r.consumed && Held(s) <= r.operands
  }

  lemma GoalBounds(cfg: Config, args: seq<string>, s: State)
    requires args != [] && Sound(cfg, s) && ReachedFrom(args, s)
    requires Outcome(cfg, s).(events := []) == Resumed(cfg, args, 1).(events := [])
    ensures PartWay(cfg, args, s)
  {}

  /** Up to `n` calls on a new scanner. */
  method CallFromStart(argv: array<string>, optstring: string, longopts: Option<seq<LongOption>>,
                       posixlyCorrect: bool, n: nat)
    returns (events: seq<Event>, ended: bool, g: Scanner)
    requires argv.Length > 0 && NoLongW(WithoutSign(optstring))
    modifies argv
    ensures g.argv == argv && g.Valid() && |events| <= n && (!ended ==> |events| == n)
    ensures var cfg := ConfigOf(optstring, longopts, posixlyCorrect);
      var r := ScanAll(cfg, old(argv[..])[1..]);
      && (if ended then events == r.events else events <= r.events && PartWay(cfg, old(argv[..]), g.View()))
  {
    g := new Scanner(argv, optstring, longopts, posixlyCorrect);
    ghost var args, cfg := argv[..], g.Cfg();
    ghost var goal := Resumed(cfg, args, 1);
    FreshOutcome(cfg, g.View());
    ReachedFromItself(g.View());
    events, ended := [], false;
    hide Outcome, Sound, Unread, WellFormed, Arg, NewOptopt, NewFlags, ConfigOf, Resumed, ReachedFrom;
    while |events| < n
      invariant |events| <= n && fresh(g) && g.argv == argv && g.Cfg() == cfg && g.Valid()
      invariant goal == g.Goal().(events := events + g.Goal().events)
      invariant ReachedFrom(args, g.View())
      invariant if g.Fresh() then argv[..] == args else g.original == args
    {
      ghost var now := g.Goal();
      var r := g.Next();
      if r.Done? {
        assert goal.events == events + now.events == events;
        ended := true;
        break;
      }
      Regroup(events, r.event, g.Goal().events);
      events := events + [r.event];
    }
    if !ended { GoalBounds(cfg, args, g.View()); }
  }

  // ----- after the end

  /** A call that does what `o` asks leaves things as they are exactly when the operands are quiet. */
  lemma StableIffQuiet(cfg: Config, argv: seq<string>, optind: nat, done: bool, argv': seq<string>, optind': nat)
    requires optind <= |argv|
    requires var o := Resumed(cfg, argv, optind);
      (done <==> o.events == []) && (done ==> argv' == o.consumed + o.operands && optind' == |o.consumed|)
    ensures done && argv' == argv && optind' == optind <==> Quiet(cfg.ordering, argv[optind..])
  {
    var r := ScanAll(cfg, argv[optind..]);
    QuietIffNothingScanned(cfg, argv[optind..]);
    hide ScanAll, Quiet;
    assert |argv[..optind] + r.consumed| == optind + |r.consumed|;
    if r.consumed == [] {
      assert argv[..optind] + [] + argv[optind..] == argv;
    }
  }

  /** As a call that ended the scan leaves a scanner. */
  ghost predicate AtRest(g: Scanner)
    reads g, g.argv
  {
    g.Valid() && g.argv.Length > 0 && !g.Fresh() && Settled(g.View())
  }

  /** One call more: on a scanner at rest it changes nothing exactly when the operands left are quiet, and
      every call that returns the end leaves the scanner at rest. */
  method AgainAfterDone(g: Scanner) returns (r: Result)
    requires g.Valid() && g.argv.Length > 0
    modifies g, g.argv
    ensures g.Valid()
    ensures r.Done? ==> AtRest(g)
    ensures old(AtRest(g)) ==>
      (r.Done? && g.argv[..] == old(g.argv[..]) && g.optind == old(g.optind)
       <==> Quiet(g.Cfg().ordering, old(g.argv[..])[old(g.optind)..]))
  {
    ghost var cfg, s, o, atRest := g.Cfg(), g.View(), g.Goal(), AtRest(g);
    if atRest { SettledOutcome(cfg, s); }
    hide Outcome, Sound, Unread, Quiet, Resumed, Settled, WellFormed, NewOptopt, NewFlags;
    r := g.Next();
    if atRest { StableIffQuiet(cfg, s.argv, s.optind, r.Done?, g.argv[..], g.optind); }
  }

  /** A call as the caller sees it: what it returned, and the vector and index it left. */
  datatype Call = Call(result: Result, argv: seq<string>, optind: nat)

  /** Any number of calls after the end. All of them return the end and leave everything as it was
      exactly when the operands left are quiet. */
  method CallAgain(g: Scanner, n: nat) returns (calls: seq<Call>)
    requires AtRest(g)
    modifies g, g.argv
    ensures |calls| == n
    ensures n > 0 ==>
      ((forall i :: 0 <= i < n ==> calls[i] == Call(Done, old(g.argv[..]), old(g.optind)))
       <==> Quiet(g.Cfg().ordering, old(g.argv[..])[old(g.optind)..]))
  {
    ghost var was, quiet := Call(Done, g.argv[..], g.optind), Quiet(g.Cfg().ordering, g.argv[..][g.optind..]);
    calls := [];
    hide Quiet, Settled;
    for i := 0 to n
      invariant |calls| == i && g.Valid()
      invariant quiet || i == 0 ==> AtRest(g) && g.argv[..] == was.argv && g.optind == was.optind
      invariant quiet ==> forall k :: 0 <= k < i ==> calls[k] == was
      invariant !quiet && i > 0 ==> calls[0] != was
    {
      var r := AgainAfterDone(g);
      calls := calls + [Call(r, g.argv[..], g.optind)];
    }
  }

  /** A whole run and `n` calls more. After a PERMUTE run that no "--" ended, every further call is without
      effect; after any other run that is so exactly when the operands left are quiet. */
  method RunThenCallAgain(argv: array<string>, optstring: string, longopts: Option<seq<LongOption>>,
                          posixlyCorrect: bool, n: nat)
    returns (events: seq<Event>, optind: nat, calls: seq<Call>)
    requires argv.Length > 0 && NoLongW(WithoutSign(optstring))
    modifies argv
    ensures |calls| == n
    ensures var cfg := ConfigOf(optstring, longopts, posixlyCorrect);
      var r := ScanAll(cfg, old(argv[..])[1..]);
      var end := Call(Done, old(argv[..])[..1] + r.consumed + r.operands, 1 + |r.consumed|);
      && events == r.events && optind == end.optind
      && (n > 0 ==> ((forall i :: 0 <= i < n ==> calls[i] == end) <==> Quiet(cfg.ordering, r.operands)))
      && (cfg.ordering == Permute && !r.terminated ==> forall i :: 0 <= i < n ==> calls[i] == end)
  {
    var g := new Scanner(argv, optstring, longopts, posixlyCorrect);
    ghost var r := ScanAll(g.Cfg(), argv[..][1..]);
    FreshOutcome(g.Cfg(), g.View());
    if g.Cfg().ordering == Permute && !r.terminated { UnterminatedIsQuiet(g.Cfg(), argv[..][1..]); }
    events := ScanToEnd(g);
    optind := g.optind;
    assert argv[..] == old(argv[..])[..1] + r.consumed + r.operands;
    assert argv[..][optind..] == r.operands;
    calls := CallAgain(g, n);
  }

  lemma SettledOutcome(cfg: Config, s: State)
    requires Sound(cfg, s) && Settled(s)
    ensures Outcome(cfg, s) == Resumed(cfg, s.argv, s.optind)
  {}
}
