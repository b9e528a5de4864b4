/** The command line of the node RPC tool: the scanner's client. */
module NodeRpc {
  import opened Wrappers
  import opened OptionTable
  import opened ScanSpec
  import opened ScanState
  import opened ScanLaws
  import opened Getopt
  import opened WholeRun
  import opened CommaList

  const HELP := 1
  const NODE := 2
  const COIN := 3
  const ADDRESS := 4
  const USER := 5
  const PASSWORD := 6
  const WALLET := 7
  const METHOD := 8
  const MINING_ADDRESSES := 9
  const PRIVATE_KEYS := 10

  const OPTIONS: seq<LongOption> := [
    LongOption("help", NoArgument, None, HELP),
    LongOption("node", RequiredArgument, None, NODE),
    LongOption("coin", RequiredArgument, None, COIN),
    LongOption("address", RequiredArgument, None, ADDRESS),
    LongOption("user", RequiredArgument, None, USER),
    LongOption("password", RequiredArgument, None, PASSWORD),
    LongOption("wallet", RequiredArgument, None, WALLET),
    LongOption("method", RequiredArgument, None, METHOD),
    LongOption("mining-addresses", RequiredArgument, None, MINING_ADDRESSES),
    LongOption("private-keys", RequiredArgument, None, PRIVATE_KEYS)
  ]

  function ToolConfig(posixlyCorrect: bool): Config {
    ConfigOf("", Some(OPTIONS), posixlyCorrect)
  }

  datatype Settings = Settings(
    node: string, coin: string, address: Option<string>, user: string, password: string, wallet: string,
    rpcMethod: string, miningAddresses: seq<string>, privateKeys: seq<string>)

  const DEFAULTS := Settings("", "", None, "", "", "", "", [], [])

  /** What the options came to: help was asked for, one was bad, or all were taken in. */
  datatype Reading = HelpShown | BadOption | Read(settings: Settings)

  function Apply(st: Settings, code: int, arg: string): Settings {
    if code == NODE then st.(node := arg)
    else if code == COIN then st.(coin := arg)
    else if code == ADDRESS then st.(address := Some(arg))
    else if code == USER then st.(user := arg)
    else if code == PASSWORD then st.(password := arg)
    else if code == WALLET then st.(wallet := arg)
    else if code == METHOD then st.(rpcMethod := arg)
    else if code == MINING_ADDRESSES then st.(miningAddresses := st.miningAddresses + Split(arg))
    else if code == PRIVATE_KEYS then st.(privateKeys := st.privateKeys + Split(arg))
    else st
  }

  ghost predicate AllWellFormed(posix: bool, es: seq<Event>) {
    forall e :: e in es ==> WellFormed(ToolConfig(posix), e)
  }

  function Code(posix: bool, e: Event): int
    requires WellFormed(ToolConfig(posix), e)
  {
    ReturnCode(ToolConfig(posix), e)
  }

  /** The returned integers cannot be confused: 1 is --help and never an operand, '?' is an error,
      ':' does not occur, and the codes of settings always come with an argument. */
  lemma CodesAreDistinct(posix: bool, e: Event)
    requires WellFormed(ToolConfig(posix), e)
    ensures Code(posix, e) == HELP <==> e.LongOpt? && e.index == 0
    ensures Code(posix, e) == '?' as int <==> e.Error?
    ensures Code(posix, e) != ':' as int
    ensures !e.Error? ==> e.LongOpt? && HELP <= Code(posix, e) == e.index + 1 <= PRIVATE_KEYS
    ensures NODE <= Code(posix, e) <= PRIVATE_KEYS ==> Arg(e).Some?
  {}

  /** An option as the loop sees it: the returned code and the text `optarg` points to. */
  datatype Taken = Taken(code: int, arg: string)

  function Argument(e: Event): string {
    match Arg(e)
    case Some(text) => text
    case None => ""
  }

  ghost function TakenOf(posix: bool, es: seq<Event>): (ts: seq<Taken>)
    requires AllWellFormed(posix, es)
  {
    if es == [] then [] else [Taken(Code(posix, es[0]), Argument(es[0]))] + TakenOf(posix, es[1..])
  }

  predicate Stops(t: Taken) {
    t.code == HELP || t.code == '?' as int
  }

  /** The option loop's meaning: the first option that stops it decides, otherwise all are taken in. */
  function ReadAll(ts: seq<Taken>, st: Settings): Reading {
    if ts == [] then Read(st)
    else if ts[0].code == HELP then HelpShown
    else if ts[0].code == '?' as int then BadOption
    else ReadAll(ts[1..], Apply(st, ts[0].code, ts[0].arg))
  }

  lemma ReadNext(posix: bool, es: seq<Event>, st: Settings)
    requires AllWellFormed(posix, es) && es != []
    ensures AllWellFormed(posix, es[1..])
    ensures var t := Taken(Code(posix, es[0]), Argument(es[0]));
      ReadAll(TakenOf(posix, es), st) ==
        if t.code == HELP then HelpShown
        else if t.code == '?' as int then BadOption
        else ReadAll(TakenOf(posix, es[1..]), Apply(st, t.code, t.arg))
  {}

  lemma ViewInRange(g: Scanner)
    requires g.Valid() && g.argv.Length > 0
    ensures g.View().optind <= |g.View().argv|
  {}

  /** The option loop. It may stop early; then the scan has not been finished. */
  method ReadOptions(g: Scanner) returns (r: Reading)
    requires g.Valid() && g.optstring == "" && g.longopts == Some(OPTIONS)
    requires g.argv.Length > 0 ==> AllWellFormed(g.posixlyCorrect, g.Goal().events)
    modifies g, g.argv
    ensures g.argv.Length == 0 ==> r == Read(DEFAULTS)
    ensures g.argv.Length > 0 ==> r == ReadAll(old(TakenOf(g.posixlyCorrect, g.Goal().events)), DEFAULTS)
    ensures g.argv.Length > 0 && r.Read? ==> g.Arranged(old(g.Goal()).(events := []))
  {
    var posix := g.posixlyCorrect;
    var st := DEFAULTS;
    if g.argv.Length == 0 {
      var first := g.Next();
      return Read(st);
    }
    ViewInRange(g);
    hide Outcome, Sound, Unread, WellFormed, ReturnCode, TakenOf, ReadAll, NewOptopt, NewFlags;
    ghost var goal := g.Goal();
    while true
      invariant g.Valid() && g.View().optind <= |g.View().argv|
      invariant goal == g.Goal().(events := goal.events)
      invariant AllWellFormed(posix, g.Goal().events) && AllWellFormed(posix, goal.events)
      invariant ReadAll(TakenOf(posix, g.Goal().events), st) == ReadAll(TakenOf(posix, goal.events), DEFAULTS)
      decreases Unread(g.View())
    {
      ghost var now := g.Goal().events;
      var next := g.Next();
      if next.Done? {
        NothingTaken(posix, st);
        return Read(st);
      }
      assert now[0] == next.event && now[1..] == g.Goal().events;
      CodesAreDistinct(posix, next.event);
      ReadNext(posix, now, st);
      var code := Code(posix, next.event);
      if code == HELP {
        return HelpShown;
      } else if code == '?' as int {
        return BadOption;
      }
      var optarg := g.optarg.value;
      st := TakeIn(st, code, optarg);
    }
  }

  lemma NothingTaken(posix: bool, st: Settings)
    ensures ReadAll(TakenOf(posix, []), st) == Read(st)
  {}

  /** The switch over a setting's code. */
  method TakeIn(st: Settings, code: int, optarg: string) returns (st': Settings)
    ensures st' == Apply(st, code, optarg)
  {
    st' := st;
    if code == NODE {
      st' := st'.(node := optarg);
    } else if code == COIN {
      st' := st'.(coin := optarg);
    } else if code == ADDRESS {
      st' := st'.(address := Some(optarg));
    } else if code == USER {
      st' := st'.(user := optarg);
    } else if code == PASSWORD {
      st' := st'.(password := optarg);
    } else if code == WALLET {
      st' := st'.(wallet := optarg);
    } else if code == METHOD {
      st' := st'.(rpcMethod := optarg);
    } else if code == MINING_ADDRESSES {
      var list := AppendPieces(st.miningAddresses, optarg);
      st' := st'.(miningAddresses := list);
    } else if code == PRIVATE_KEYS {
      var list := AppendPieces(st.privateKeys, optarg);
      st' := st'.(privateKeys := list);
    }
  }

  // ----- the whole command line

  /** The tool goes on only with these set, and with a key for every mining address or none at all. */
  predicate Acceptable(st: Settings) {
    && st.node != "" && st.coin != "" && st.address.Some? && st.rpcMethod != ""
    && (st.privateKeys == [] || |st.privateKeys| == |st.miningAddresses|)
  }

  /** Exit with help, exit with an error, or go on with settings and operands. */
  datatype Launch = Help | Refused | Ready(settings: Settings, operands: seq<string>)

  ghost function MeaningOf(posix: bool, s: Scan): Launch
    requires AllWellFormed(posix, s.events)
  {
    match ReadAll(TakenOf(posix, s.events), DEFAULTS)
    case HelpShown => Help
    case BadOption => Refused
    case Read(st) => if Acceptable(st) then Ready(st, s.operands) else Refused
  }

  ghost function Meaning(posix: bool, argv: seq<string>): Launch
    requires argv != []
  {
    EventsWellFormed(ToolConfig(posix), argv[1..]);
    MeaningOf(posix, ScanAll(ToolConfig(posix), argv[1..]))
  }

  lemma GoalAtStart(g: Scanner)
    requires g.Valid() && g.argv.Length > 0 && g.Fresh() && g.optind == 1
    requires g.optstring == "" && g.longopts == Some(OPTIONS)
    ensures var s := ScanAll(ToolConfig(g.posixlyCorrect), g.argv[..][1..]);
      g.Goal().events == s.events && g.Goal().operands == s.operands && AllWellFormed(g.posixlyCorrect, s.events)
  {
    FreshOutcome(g.Cfg(), g.View());
    EventsWellFormed(g.Cfg(), g.argv[..][1..]);
  }

  /** A new scanner and the option loop on it; `first` is where the operands then start. */
  method ReadFromStart(argv: array<string>, posixlyCorrect: bool) returns (r: Reading, first: nat)
    requires argv.Length > 0
    modifies argv
    ensures var s := ScanAll(ToolConfig(posixlyCorrect), old(argv[..])[1..]);
      && AllWellFormed(posixlyCorrect, s.events)
      && r == ReadAll(TakenOf(posixlyCorrect, s.events), DEFAULTS)
      && (r.Read? ==> first <= argv.Length && argv[first..] == s.operands)
  {
    assert NoLongW(WithoutSign(""));
    hide *;
    var g := new Scanner(argv, "", Some(OPTIONS), posixlyCorrect);
    GoalAtStart(g);
    r := ReadOptions(g);
    first := g.optind;
    assert r.Read? ==> argv[..][first..] == argv[first..];
  }

  /** `first` and `count` are the operand window handed to the command: `argv + optind`, `argc - optind`. */
  method ParseCommandLine(argv: array<string>, posixlyCorrect: bool) returns (o: Launch, first: nat, count: nat)
    modifies argv
    ensures argv.Length == 0 ==> o == Refused
    ensures argv.Length > 0 ==> o == Meaning(posixlyCorrect, old(argv[..]))
    ensures o.Ready? ==> first + count == argv.Length && argv[first..first + count] == o.operands
  {
    var r := Read(DEFAULTS);
    first, count := 0, 0;
    if argv.Length > 0 {
      r, first := ReadFromStart(argv, posixlyCorrect);
    }
    match r
    case HelpShown => o := Help;
    case BadOption => o := Refused;
    case Read(st) =>
      if Acceptable(st) {
        count := argv.Length - first;
        o := Ready(st, argv[first..]);
      } else {
        o := Refused;
      }
  }

  /** The size check makes every key access below it safe, and pairs stay in the order given. */
  method PairKeys(st: Settings) returns (pairs: seq<(string, string)>)
    requires Acceptable(st)
    ensures |pairs| == |st.miningAddresses|
    ensures forall i :: 0 <= i < |pairs| ==>
      pairs[i] == (st.miningAddresses[i], if st.privateKeys == [] then "" else st.privateKeys[i])
  {
    pairs := [];
    for i := 0 to |st.miningAddresses|
      invariant |pairs| == i
      invariant forall k :: 0 <= k < i ==>
        pairs[k] == (st.miningAddresses[k], if st.privateKeys == [] then "" else st.privateKeys[k])
    {
      pairs := pairs + [(st.miningAddresses[i], if st.privateKeys != [] then st.privateKeys[i] else "")];
    }
  }

  // ----- what the settings are

  /** The first option that stops the loop decides how it ends; options after it are never looked at. */
  lemma {:induction false} FirstStopDecides(ts: seq<Taken>, st: Settings, k: nat)
    requires k <= |ts| && forall i :: 0 <= i < k ==> !Stops(ts[i])
    requires k < |ts| ==> Stops(ts[k])
    ensures var r := ReadAll(ts, st);
      if k == |ts| then r.Read? else if ts[k].code == HELP then r.HelpShown? else r.BadOption?
  {
    if k == 0 {
    } else {
      assert !Stops(ts[0]);
      FirstStopDecides(ts[1..], Apply(st, ts[0].code, ts[0].arg), k - 1);
    }
  }

  /** The arguments of every occurrence of the option with this code, in order. */
  function ArgsWith(ts: seq<Taken>, code: int): seq<string> {
    if ts == [] then []
    else (if ts[0].code == code then [ts[0].arg] else []) + ArgsWith(ts[1..], code)
  }

  function LastOf(xs: seq<string>, default: string): string {
    if xs == [] then default else xs[|xs| - 1]
  }

  function SplitAll(xs: seq<string>): seq<string> {
    if xs == [] then [] else Split(xs[0]) + SplitAll(xs[1..])
  }

  lemma ArgsOfHead(ts: seq<Taken>, code: int)
    requires ts != []
    ensures ArgsWith(ts, code) ==
      if ts[0].code == code then [ts[0].arg] + ArgsWith(ts[1..], code) else ArgsWith(ts[1..], code)
  {}

  /** The single-valued settings, by option code (an address not given reads as empty). */
  function Single(st: Settings, code: int): string {
    if code == NODE then st.node
    else if code == COIN then st.coin
    else if code == ADDRESS then (match st.address case Some(a) => a case None => "")
    else if code == USER then st.user
    else if code == PASSWORD then st.password
    else if code == WALLET then st.wallet
    else st.rpcMethod
  }

  function List(st: Settings, code: int): seq<string> {
    if code == MINING_ADDRESSES then st.miningAddresses else st.privateKeys
  }

  predicate LastWins(ts: seq<Taken>, st: Settings, r: Settings) {
    && (forall code :: NODE <= code <= METHOD ==> Single(r, code) == LastOf(ArgsWith(ts, code), Single(st, code)))
    && (r.address.Some? <==> st.address.Some? || ArgsWith(ts, ADDRESS) != [])
  }

  predicate ListsGrow(ts: seq<Taken>, st: Settings, r: Settings) {
    forall code :: MINING_ADDRESSES <= code <= PRIVATE_KEYS ==>
      List(r, code) == List(st, code) + SplitAll(ArgsWith(ts, code))
  }

  lemma ApplyAt(st: Settings, t: Taken, code: int)
    ensures NODE <= code <= METHOD ==>
      Single(Apply(st, t.code, t.arg), code) == if t.code == code then t.arg else Single(st, code)
    ensures MINING_ADDRESSES <= code <= PRIVATE_KEYS ==>
      List(Apply(st, t.code, t.arg), code) == if t.code == code then List(st, code) + Split(t.arg) else List(st, code)
  {}

  lemma SplitAllCons(x: string, xs: seq<string>)
    ensures SplitAll([x] + xs) == Split(x) + SplitAll(xs)
  {}

  /** Single-valued options are last-wins; list options accumulate over all their occurrences. */
  lemma {:induction false} LastWinsAndListsGrow(ts: seq<Taken>, st: Settings)
    requires ReadAll(ts, st).Read?
    ensures LastWins(ts, st, ReadAll(ts, st).settings) && ListsGrow(ts, st, ReadAll(ts, st).settings)
  {
    if ts == [] {
    } else {
      var st' := Apply(st, ts[0].code, ts[0].arg);
      LastWinsAndListsGrow(ts[1..], st');
      ReadOneMore(ts, st, ReadAll(ts[1..], st').settings);
    }
  }

  lemma SingleOneMore(ts: seq<Taken>, st: Settings, r: Settings, code: int)
    requires ts != [] && NODE <= code <= METHOD
    requires var st' := Apply(st, ts[0].code, ts[0].arg);
      Single(r, code) == LastOf(ArgsWith(ts[1..], code), Single(st', code))
    ensures Single(r, code) == LastOf(ArgsWith(ts, code), Single(st, code))
  {
    ArgsOfHead(ts, code);
    ApplyAt(st, ts[0], code);
    hide Apply, Single, ArgsWith;
  }

  lemma Regrouped(a: seq<string>, b: seq<string>, c: seq<string>)
    ensures (a + b) + c == a + (b + c)
  {}

  lemma ListOneMore(ts: seq<Taken>, st: Settings, r: Settings, code: int)
    requires ts != [] && MINING_ADDRESSES <= code <= PRIVATE_KEYS
    requires var st' := Apply(st, ts[0].code, ts[0].arg);
      List(r, code) == List(st', code) + SplitAll(ArgsWith(ts[1..], code))
    ensures List(r, code) == List(st, code) + SplitAll(ArgsWith(ts, code))
  {
    ArgsOfHead(ts, code);
    ApplyAt(st, ts[0], code);
    SplitAllCons(ts[0].arg, ArgsWith(ts[1..], code));
    Regrouped(List(st, code), Split(ts[0].arg), SplitAll(ArgsWith(ts[1..], code)));
    hide Apply, List, ArgsWith, Split, SplitAll;
  }

  lemma ReadOneMore(ts: seq<Taken>, st: Settings, r: Settings)
    requires ts != []
    requires var st' := Apply(st, ts[0].code, ts[0].arg); LastWins(ts[1..], st', r) && ListsGrow(ts[1..], st', r)
    ensures LastWins(ts, st, r) && ListsGrow(ts, st, r)
  {
    var st' := Apply(st, ts[0].code, ts[0].arg);
    assert st'.address.Some? <==> st.address.Some? || ts[0].code == ADDRESS;
    ArgsOfHead(ts, ADDRESS);
    hide Apply, Single, List, LastOf, ArgsWith, SplitAll;
    forall code | NODE <= code <= METHOD
      ensures Single(r, code) == LastOf(ArgsWith(ts, code), Single(st, code))
    {
      SingleOneMore(ts, st, r, code);
    }
    forall code | MINING_ADDRESSES <= code <= PRIVATE_KEYS
      ensures List(r, code) == List(st, code) + SplitAll(ArgsWith(ts, code))
    {
      ListOneMore(ts, st, r, code);
    }
  }

  // ----- where operands stand on the command line

  /** Two command lines with the same options and the same operands launch alike, however they are mixed. */
  lemma OperandPlacementIrrelevant(program: string, i1: seq<Item>, i2: seq<Item>, tail: seq<string>)
    requires Proper(ToolConfig(false), i1) && Proper(ToolConfig(false), i2)
    requires Units(i1) == Units(i2) && Operands(i1) == Operands(i2)
    ensures Meaning(false, [program] + Flat(i1) + tail) == Meaning(false, [program] + Flat(i2) + tail)
  {
    InterleavingIrrelevant(ToolConfig(false), i1, i2, tail);
    AfterProgram(program, Flat(i1), tail);
    AfterProgram(program, Flat(i2), tail);
  }

  lemma AfterProgram(program: string, a: seq<string>, b: seq<string>)
    ensures ([program] + a + b)[1..] == a + b
  {}
}
