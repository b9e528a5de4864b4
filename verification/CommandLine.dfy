/** What the node RPC tool makes of a command line, with the option names written out. */
module CommandLine {
  import opened Wrappers
  import opened OptionTable
  import opened ScanSpec
  import opened ScanLaws
  import opened Spellings
  import opened Getopt
  import opened CommaList
  import opened NodeRpc

  /** A setting on the command line: the option meant, its name as typed, the value, and whether the two
      are joined by '='. */
  datatype Given = Given(option: string, typed: string, value: string, joined: bool)

  /** An option's name, or an abbreviation; "p" and "m" each start two names. */
  predicate Abbreviates(typed: string, option: string) {
    typed <= option && typed != "" && typed != "p" && typed != "m"
  }

  predicate IsSetting(option: string) {
    option in ["node", "coin", "address", "user", "password", "wallet", "method", "mining-addresses", "private-keys"]
  }

  predicate AllSettings(gs: seq<Given>) {
    forall g :: g in gs ==> IsSetting(g.option) && Abbreviates(g.typed, g.option)
  }

  function Written(g: Given): seq<string> {
    if g.joined then ["--" + g.typed + "=" + g.value] else ["--" + g.typed, g.value]
  }

  function Line(gs: seq<Given>): seq<string> {
    if gs == [] then [] else Written(gs[0]) + Line(gs[1..])
  }

  /** The values given for an option, in order. */
  function Values(gs: seq<Given>, option: string): seq<string> {
    if gs == [] then []
    else (if gs[0].option == option then [gs[0].value] else []) + Values(gs[1..], option)
  }

  // ----- names and codes

  function CodeFor(option: string): int
    requires IsSetting(option)
  {
    if option == "node" then NODE
    else if option == "coin" then COIN
    else if option == "address" then ADDRESS
    else if option == "user" then USER
    else if option == "password" then PASSWORD
    else if option == "wallet" then WALLET
    else if option == "method" then METHOD
    else if option == "mining-addresses" then MINING_ADDRESSES
    else PRIVATE_KEYS
  }

  lemma CodesTellApart(a: string, b: string)
    requires IsSetting(a) && IsSetting(b)
    ensures NODE <= CodeFor(a) <= PRIVATE_KEYS && (CodeFor(a) == CodeFor(b) <==> a == b)
  {}

  lemma OnlyPrefix(longs: seq<LongOption>, key: string, i: nat)
    requires i < |longs| && key <= longs[i].name
    requires forall j :: 0 <= j < |longs| && j != i ==> !(key <= longs[j].name)
    ensures Lookup(longs, key) == Found(i)
  {
    FoundIff(longs, key, i);
  }

  /** The first two characters tell the names apart. */
  lemma NamesDiffer(i: nat, j: nat)
    requires i < 10 && j < 10 && i != j
    ensures var a, b := OPTIONS[i].name, OPTIONS[j].name;
      |a| > 1 && |b| > 1 && (a[0] != b[0] || (a[1] != b[1] && a[0] in {'p', 'm'}))
  {}

  lemma AbbreviatesNoOther(i: nat, j: nat, typed: string)
    requires i < 10 && j < 10 && i != j && Abbreviates(typed, OPTIONS[i].name)
    ensures !(typed <= OPTIONS[j].name)
  {
    NamesDiffer(i, j);
    assert typed[0] == OPTIONS[i].name[0];
    if |typed| > 1 { assert typed[1] == OPTIONS[i].name[1]; }
    hide *;
  }

  lemma EntryOf(option: string)
    requires IsSetting(option)
    ensures NODE <= CodeFor(option) <= PRIVATE_KEYS && '=' !in option
    ensures OPTIONS[CodeFor(option) - 1] == LongOption(option, RequiredArgument, None, CodeFor(option))
  {}

  lemma SettingFound(option: string, typed: string)
    requires IsSetting(option) && Abbreviates(typed, option)
    ensures NODE <= CodeFor(option) <= PRIVATE_KEYS && '=' !in typed
    ensures Lookup(OPTIONS, typed) == Found(CodeFor(option) - 1)
    ensures OPTIONS[CodeFor(option) - 1] == LongOption(option, RequiredArgument, None, CodeFor(option))
  {
    EntryOf(option);
    hide IsSetting, CodeFor;
    var i := CodeFor(option) - 1;
    forall j | 0 <= j < |OPTIONS| && j != i ensures !(typed <= OPTIONS[j].name) {
      AbbreviatesNoOther(i, j, typed);
    }
    OnlyPrefix(OPTIONS, typed, i);
  }

  // ----- reading settings one after another

  function Codes(gs: seq<Given>): seq<Taken>
    requires AllSettings(gs)
  {
    if gs == [] then []
    else
      assert gs[0] in gs;
      [Taken(CodeFor(gs[0].option), gs[0].value)] + Codes(gs[1..])
  }

  ghost function TakenIn(posix: bool, args: seq<string>): seq<Taken> {
    EventsWellFormed(ToolConfig(posix), args);
    TakenOf(posix, ScanAll(ToolConfig(posix), args).events)
  }

  lemma GivenScans(posix: bool, g: Given, rest: seq<string>)
    requires IsSetting(g.option) && Abbreviates(g.typed, g.option)
    ensures var r, s := ScanAll(ToolConfig(posix), rest), ScanAll(ToolConfig(posix), Written(g) + rest);
      s.events == [LongOpt(CodeFor(g.option) - 1, Some(g.value))] + r.events && s.operands == r.operands
  {
    var cfg, i := ToolConfig(posix), CodeFor(g.option) - 1;
    SettingFound(g.option, g.typed);
    if g.joined {
      LongWithValue(cfg, OPTIONS, g.typed, g.value, i, rest);
    } else {
      LongThenValue(cfg, OPTIONS, g.typed, g.value, i, rest);
    }
  }

  lemma GivenTaken(posix: bool, g: Given, rest: seq<string>)
    requires IsSetting(g.option) && Abbreviates(g.typed, g.option)
    ensures TakenIn(posix, Written(g) + rest) == [Taken(CodeFor(g.option), g.value)] + TakenIn(posix, rest)
  {
    GivenScans(posix, g, rest);
    SettingFound(g.option, g.typed);
    var es := ScanAll(ToolConfig(posix), Written(g) + rest).events;
    EventsWellFormed(ToolConfig(posix), Written(g) + rest);
    EventsWellFormed(ToolConfig(posix), rest);
    assert es[0] == LongOpt(CodeFor(g.option) - 1, Some(g.value)) && es[1..] == ScanAll(ToolConfig(posix), rest).events;
    hide ScanAll;
  }

  lemma LineHead(gs: seq<Given>, rest: seq<string>)
    requires gs != []
    ensures Line(gs) + rest == Written(gs[0]) + (Line(gs[1..]) + rest)
  {
    Regroup(Written(gs[0]), Line(gs[1..]), rest);
  }

  lemma CodesHead(gs: seq<Given>, more: seq<Taken>)
    requires AllSettings(gs) && gs != []
    ensures Codes(gs) + more == [Taken(CodeFor(gs[0].option), gs[0].value)] + (Codes(gs[1..]) + more)
  {
    assert gs[0] in gs;
  }

  lemma {:induction false} LineTaken(posix: bool, gs: seq<Given>, rest: seq<string>)
    requires AllSettings(gs)
    ensures TakenIn(posix, Line(gs) + rest) == Codes(gs) + TakenIn(posix, rest)
    ensures ScanAll(ToolConfig(posix), Line(gs) + rest).operands == ScanAll(ToolConfig(posix), rest).operands
  {
    if gs == [] {
      assert Line(gs) + rest == rest;
    } else {
      assert gs[0] in gs;
      LineTaken(posix, gs[1..], rest);
      LineHead(gs, rest);
      GivenTaken(posix, gs[0], Line(gs[1..]) + rest);
      GivenScans(posix, gs[0], Line(gs[1..]) + rest);
      CodesHead(gs, TakenIn(posix, rest));
      hide TakenIn, ScanAll, Written, Line, CodeFor, Codes, AllSettings, Abbreviates, IsSetting, ToolConfig;
    }
  }

  lemma {:induction false} CodesAreSettings(gs: seq<Given>)
    requires AllSettings(gs)
    ensures |Codes(gs)| == |gs| && forall t :: t in Codes(gs) ==> NODE <= t.code <= PRIVATE_KEYS
  {
    if gs == [] {
    } else {
      assert gs[0] in gs;
      CodesAreSettings(gs[1..]);
      CodesTellApart(gs[0].option, gs[0].option);
      hide CodeFor, IsSetting, Abbreviates;
    }
  }

  lemma CodesGoOn(gs: seq<Given>, more: seq<Taken>)
    requires AllSettings(gs)
    ensures |Codes(gs)| == |gs| && forall i :: 0 <= i < |gs| ==> !Stops((Codes(gs) + more)[i])
  {
    CodesAreSettings(gs);
    hide Codes;
    forall i | 0 <= i < |gs| ensures !Stops((Codes(gs) + more)[i]) {
      assert (Codes(gs) + more)[i] == Codes(gs)[i] && Codes(gs)[i] in Codes(gs);
    }
  }

  lemma {:induction false} ArgsAreValues(gs: seq<Given>, option: string)
    requires AllSettings(gs) && IsSetting(option)
    ensures ArgsWith(Codes(gs), CodeFor(option)) == Values(gs, option)
  {
    if gs == [] {
    } else {
      assert gs[0] in gs;
      ArgsAreValues(gs[1..], option);
      CodesTellApart(gs[0].option, option);
      hide CodeFor, IsSetting, Abbreviates;
      assert Codes(gs)[1..] == Codes(gs[1..]);
      ArgsOfHead(Codes(gs), CodeFor(option));
    }
  }

  lemma MeaningOfLine(posix: bool, program: string, gs: seq<Given>, rest: seq<string>)
    requires AllSettings(gs)
    ensures Meaning(posix, [program] + Line(gs) + rest) ==
      match ReadAll(Codes(gs) + TakenIn(posix, rest), DEFAULTS)
      case HelpShown => Help
      case BadOption => Refused
      case Read(st) =>
        if Acceptable(st) then Ready(st, ScanAll(ToolConfig(posix), rest).operands) else Refused
  {
    AfterProgram(program, Line(gs), rest);
    LineTaken(posix, gs, rest);
    EventsWellFormed(ToolConfig(posix), Line(gs) + rest);
    hide ScanAll, ReadAll, Acceptable, TakenOf;
  }

  // ----- settings and operands

  lemma {:induction false} OperandsOnly(posix: bool, ops: seq<string>)
    requires forall a :: a in ops ==> a == "" || a[0] != '-' || a == "-"
    ensures ScanAll(ToolConfig(posix), ops).operands == ops && TakenIn(posix, ops) == []
  {
    QuietIffNothingScanned(ToolConfig(posix), ops);
    assert ops != [] ==> ops[0] in ops;
  }

  lemma ReadToTheEnd(gs: seq<Given>)
    requires AllSettings(gs)
    ensures ReadAll(Codes(gs), DEFAULTS).Read?
  {
    assert Codes(gs) + [] == Codes(gs);
    CodesGoOn(gs, []);
    FirstStopDecides(Codes(gs), DEFAULTS, |gs|);
    hide ReadAll, Codes;
  }

  lemma LastWinsAt(ts: seq<Taken>, code: int)
    requires ReadAll(ts, DEFAULTS).Read? && NODE <= code <= METHOD
    ensures Single(ReadAll(ts, DEFAULTS).settings, code) == LastOf(ArgsWith(ts, code), "")
  {
    LastWinsAndListsGrow(ts, DEFAULTS);
    hide ReadAll, ListsGrow, LastOf, ArgsWith;
  }

  lemma ListGrowsAt(ts: seq<Taken>, code: int)
    requires ReadAll(ts, DEFAULTS).Read? && MINING_ADDRESSES <= code <= PRIVATE_KEYS
    ensures List(ReadAll(ts, DEFAULTS).settings, code) == SplitAll(ArgsWith(ts, code))
  {
    LastWinsAndListsGrow(ts, DEFAULTS);
    hide ReadAll, LastWins, SplitAll, ArgsWith;
    assert [] + SplitAll(ArgsWith(ts, code)) == SplitAll(ArgsWith(ts, code));
  }

  lemma SingleAsGiven(gs: seq<Given>, option: string)
    requires AllSettings(gs) && IsSetting(option) && CodeFor(option) <= METHOD
    ensures ReadAll(Codes(gs), DEFAULTS).Read?
    ensures Single(ReadAll(Codes(gs), DEFAULTS).settings, CodeFor(option)) == LastOf(Values(gs, option), "")
  {
    ReadToTheEnd(gs);
    CodesTellApart(option, option);
    LastWinsAt(Codes(gs), CodeFor(option));
    ArgsAreValues(gs, option);
    hide *;
  }

  lemma ListAsGiven(gs: seq<Given>, option: string)
    requires AllSettings(gs) && IsSetting(option) && CodeFor(option) > METHOD
    ensures ReadAll(Codes(gs), DEFAULTS).Read?
    ensures List(ReadAll(Codes(gs), DEFAULTS).settings, CodeFor(option)) == SplitAll(Values(gs, option))
  {
    ReadToTheEnd(gs);
    CodesTellApart(option, option);
    ListGrowsAt(Codes(gs), CodeFor(option));
    ArgsAreValues(gs, option);
    hide *;
  }

  lemma AddressAsGiven(gs: seq<Given>)
    requires AllSettings(gs)
    ensures ReadAll(Codes(gs), DEFAULTS).Read?
    ensures ReadAll(Codes(gs), DEFAULTS).settings.address ==
      if Values(gs, "address") == [] then None else Some(LastOf(Values(gs, "address"), ""))
  {
    SingleAsGiven(gs, "address");
    LastWinsAndListsGrow(Codes(gs), DEFAULTS);
    ArgsAreValues(gs, "address");
    hide ReadAll, Codes, ArgsWith, LastOf, Values, AllSettings, ListsGrow;
  }

  lemma FieldsByCode(r: Settings)
    ensures Single(r, CodeFor("node")) == r.node && Single(r, CodeFor("coin")) == r.coin
    ensures Single(r, CodeFor("user")) == r.user && Single(r, CodeFor("password")) == r.password
    ensures Single(r, CodeFor("wallet")) == r.wallet && Single(r, CodeFor("method")) == r.rpcMethod
    ensures List(r, CodeFor("mining-addresses")) == r.miningAddresses
    ensures List(r, CodeFor("private-keys")) == r.privateKeys
  {}

  lemma ReadAsGiven(gs: seq<Given>)
    requires AllSettings(gs)
    ensures ReadAll(Codes(gs), DEFAULTS) == Read(Settings(
      LastOf(Values(gs, "node"), ""), LastOf(Values(gs, "coin"), ""),
      if Values(gs, "address") == [] then None else Some(LastOf(Values(gs, "address"), "")),
      LastOf(Values(gs, "user"), ""), LastOf(Values(gs, "password"), ""), LastOf(Values(gs, "wallet"), ""),
      LastOf(Values(gs, "method"), ""),
      SplitAll(Values(gs, "mining-addresses")), SplitAll(Values(gs, "private-keys"))))
  {
    hide ReadAll, Codes, LastOf, SplitAll, Values, AllSettings, Single, List;
    AddressAsGiven(gs);
    FieldsByCode(ReadAll(Codes(gs), DEFAULTS).settings);
    SingleAsGiven(gs, "node");
    SingleAsGiven(gs, "coin");
    SingleAsGiven(gs, "user");
    SingleAsGiven(gs, "password");
    SingleAsGiven(gs, "wallet");
    SingleAsGiven(gs, "method");
    ListAsGiven(gs, "mining-addresses");
    ListAsGiven(gs, "private-keys");
  }

  /** What the settings given come to, whatever their order, spelling and number: of each single value the
      last, of the two lists all. The tool goes on exactly if node, coin and method are there and not empty,
      an address is there, and there are as many private keys as mining addresses, or none. */
  lemma SettingsAsGiven(posix: bool, program: string, gs: seq<Given>, ops: seq<string>)
    requires AllSettings(gs) && forall a :: a in ops ==> a == "" || a[0] != '-' || a == "-"
    ensures var addresses, keys := SplitAll(Values(gs, "mining-addresses")), SplitAll(Values(gs, "private-keys"));
      var st := Settings(
        node := LastOf(Values(gs, "node"), ""),
        coin := LastOf(Values(gs, "coin"), ""),
        address := if Values(gs, "address") == [] then None else Some(LastOf(Values(gs, "address"), "")),
        user := LastOf(Values(gs, "user"), ""),
        password := LastOf(Values(gs, "password"), ""),
        wallet := LastOf(Values(gs, "wallet"), ""),
        rpcMethod := LastOf(Values(gs, "method"), ""),
        miningAddresses := addresses,
        privateKeys := keys);
      Meaning(posix, [program] + Line(gs) + ops) ==
        if && st.node != "" && st.coin != "" && Values(gs, "address") != [] && st.rpcMethod != ""
           && (keys == [] || |keys| == |addresses|)
        then Ready(st, ops) else Refused
  {
    OperandsOnly(posix, ops);
    MeaningOfLine(posix, program, gs, ops);
    assert Codes(gs) + [] == Codes(gs);
    ReadAsGiven(gs);
    hide Meaning, ReadAll, Codes, ScanAll, TakenIn, LastOf, SplitAll, Values, AllSettings, Line;
  }

  /** Without one of these four options nothing is launched. */
  lemma FourAreNeeded(posix: bool, program: string, gs: seq<Given>, ops: seq<string>, missing: string)
    requires AllSettings(gs) && forall a :: a in ops ==> a == "" || a[0] != '-' || a == "-"
    requires missing in ["node", "coin", "address", "method"] && forall g :: g in gs ==> g.option != missing
    ensures Meaning(posix, [program] + Line(gs) + ops) == Refused
  {
    SettingsAsGiven(posix, program, gs, ops);
    NoValues(gs, missing);
    hide Meaning, Line;
  }

  lemma {:induction false} NoValues(gs: seq<Given>, option: string)
    requires forall g :: g in gs ==> g.option != option
    ensures Values(gs, option) == []
  {
    if gs == [] {
    } else {
      assert gs[0] in gs;
      NoValues(gs[1..], option);
    }
  }

  // ----- one command line with everything on it

  lemma {:induction false} ValuesOfOne(gs: seq<Given>, k: nat)
    requires k < |gs| && forall j :: 0 <= j < |gs| && j != k ==> gs[j].option != gs[k].option
    ensures Values(gs, gs[k].option) == [gs[k].value]
  {
    if k == 0 {
      NoValues(gs[1..], gs[0].option);
    } else {
      ValuesOfOne(gs[1..], k - 1);
    }
  }

  lemma {:induction false} LineAt(gs: seq<Given>, k: nat)
    requires k < |gs| && forall g :: g in gs ==> !g.joined
    ensures |Line(gs)| == 2 * |gs| && Line(gs)[2 * k] == "--" + gs[k].typed && Line(gs)[2 * k + 1] == gs[k].value
  {
    assert gs[0] in gs;
    assert Line(gs) == ["--" + gs[0].typed, gs[0].value] + Line(gs[1..]);
    if |gs| > 1 { LineAt(gs[1..], if k == 0 then 0 else k - 1); }
  }

  function Nine(n: string, c: string, a: string, u: string, p: string, w: string, m: string, x: string, y: string)
    : seq<Given>
  {
    [Given("node", "node", n, false), Given("coin", "coin", c, false), Given("address", "address", a, false),
     Given("user", "user", u, false), Given("password", "password", p, false), Given("wallet", "wallet", w, false),
     Given("method", "method", m, false), Given("mining-addresses", "mining-addresses", x, false),
     Given("private-keys", "private-keys", y, false)]
  }

  lemma NineAt(gs: seq<Given>, i: nat)
    requires |gs| == 9 && i < 9 && gs == Nine(gs[0].value, gs[1].value, gs[2].value, gs[3].value, gs[4].value,
                                              gs[5].value, gs[6].value, gs[7].value, gs[8].value)
    ensures gs[i].option == gs[i].typed == OPTIONS[i + 1].name && !gs[i].joined
    ensures IsSetting(gs[i].option) && Abbreviates(gs[i].typed, gs[i].option)
  {}

  lemma NineAreDistinct(gs: seq<Given>)
    requires |gs| == 9 && gs == Nine(gs[0].value, gs[1].value, gs[2].value, gs[3].value, gs[4].value,
                                     gs[5].value, gs[6].value, gs[7].value, gs[8].value)
    ensures AllSettings(gs)
    ensures forall i, j :: 0 <= i < 9 && 0 <= j < 9 && i != j ==> gs[i].option != gs[j].option
  {
    hide Nine, IsSetting, Abbreviates;
    forall i: nat | i < 9
      ensures IsSetting(gs[i].option) && Abbreviates(gs[i].typed, gs[i].option) && gs[i].option == OPTIONS[i + 1].name
    {
      NineAt(gs, i);
    }
    forall i, j | 0 <= i < 9 && 0 <= j < 9 && i != j ensures gs[i].option != gs[j].option {
      NamesDiffer(i + 1, j + 1);
    }
  }

  lemma NineValues(n: string, c: string, a: string, u: string, p: string, w: string, m: string, x: string, y: string)
    ensures var gs := Nine(n, c, a, u, p, w, m, x, y);
      && Values(gs, "node") == [n] && Values(gs, "coin") == [c] && Values(gs, "address") == [a]
      && Values(gs, "user") == [u] && Values(gs, "password") == [p] && Values(gs, "wallet") == [w]
      && Values(gs, "method") == [m] && Values(gs, "mining-addresses") == [x] && Values(gs, "private-keys") == [y]
  {
    var gs := Nine(n, c, a, u, p, w, m, x, y);
    NineAreDistinct(gs);
    hide Values;
    ValuesOfOne(gs, 0);
    ValuesOfOne(gs, 1);
    ValuesOfOne(gs, 2);
    ValuesOfOne(gs, 3);
    ValuesOfOne(gs, 4);
    ValuesOfOne(gs, 5);
    ValuesOfOne(gs, 6);
    ValuesOfOne(gs, 7);
    ValuesOfOne(gs, 8);
  }

  /** Each option's value is in its own place. */
  lemma NineOptions(posix: bool, program: string, n: string, c: string, a: string, u: string, p: string, w: string,
                    m: string, x: string, y: string, ops: seq<string>)
    requires n != "" && c != "" && m != "" && |Split(y)| == |Split(x)|
    requires forall o :: o in ops ==> o == "" || o[0] != '-' || o == "-"
    ensures Meaning(posix, [program,
        "--node", n, "--coin", c, "--address", a, "--user", u, "--password", p, "--wallet", w, "--method", m,
        "--mining-addresses", x, "--private-keys", y] + ops)
      == Ready(Settings(node := n, coin := c, address := Some(a), user := u, password := p, wallet := w,
                        rpcMethod := m, miningAddresses := Split(x), privateKeys := Split(y)), ops)
  {
    var gs := Nine(n, c, a, u, p, w, m, x, y);
    NineAreDistinct(gs);
    NineValues(n, c, a, u, p, w, m, x, y);
    NineWritten(program, n, c, a, u, p, w, m, x, y, ops);
    SettingsAsGiven(posix, program, gs, ops);
    SplitAllOne(x);
    SplitAllOne(y);
    hide Meaning, Split, SplitAll, Values, Line, AllSettings, Nine;
  }

  lemma SplitAllOne(x: string)
    ensures SplitAll([x]) == Split(x)
  {
    assert Split(x) + [] == Split(x);
  }

  lemma Dashed()
    ensures "--" + "node" == "--node" && "--" + "coin" == "--coin" && "--" + "address" == "--address"
    ensures "--" + "user" == "--user" && "--" + "password" == "--password" && "--" + "wallet" == "--wallet"
    ensures "--" + "method" == "--method" && "--" + "mining-addresses" == "--mining-addresses"
    ensures "--" + "private-keys" == "--private-keys"
  {}

  lemma LineOfNine(n: string, c: string, a: string, u: string, p: string, w: string, m: string, x: string, y: string)
    ensures Line(Nine(n, c, a, u, p, w, m, x, y)) == [
      "--node", n, "--coin", c, "--address", a, "--user", u, "--password", p, "--wallet", w, "--method", m,
      "--mining-addresses", x, "--private-keys", y]
  {
    var gs := Nine(n, c, a, u, p, w, m, x, y);
    hide Line;
    Dashed();
    LineAt(gs, 0);
    LineAt(gs, 1);
    LineAt(gs, 2);
    LineAt(gs, 3);
    LineAt(gs, 4);
    LineAt(gs, 5);
    LineAt(gs, 6);
    LineAt(gs, 7);
    LineAt(gs, 8);
  }

  lemma NineWritten(program: string, n: string, c: string, a: string, u: string, p: string, w: string,
                    m: string, x: string, y: string, ops: seq<string>)
    ensures [program] + Line(Nine(n, c, a, u, p, w, m, x, y)) + ops == [program,
        "--node", n, "--coin", c, "--address", a, "--user", u, "--password", p, "--wallet", w, "--method", m,
        "--mining-addresses", x, "--private-keys", y] + ops
  {
    LineOfNine(n, c, a, u, p, w, m, x, y);
    hide *;
  }

  // ----- help and bad options

  lemma StopAfterLine(posix: bool, program: string, gs: seq<Given>, rest: seq<string>)
    requires AllSettings(gs) && TakenIn(posix, rest) != [] && Stops(TakenIn(posix, rest)[0])
    ensures Meaning(posix, [program] + Line(gs) + rest) ==
      if TakenIn(posix, rest)[0].code == HELP then Help else Refused
  {
    MeaningOfLine(posix, program, gs, rest);
    var more := TakenIn(posix, rest);
    CodesGoOn(gs, more);
    assert (Codes(gs) + more)[|gs|] == more[0];
    FirstStopDecides(Codes(gs) + more, DEFAULTS, |gs|);
    hide Meaning, ReadAll, Codes, TakenIn;
  }

  /** `--help`, or an abbreviation of it: help, whatever follows. */
  lemma HelpIsShown(posix: bool, program: string, gs: seq<Given>, typed: string, more: seq<string>)
    requires AllSettings(gs) && typed <= "help" && typed != ""
    ensures Meaning(posix, [program] + Line(gs) + (["--" + typed] + more)) == Help
  {
    HelpFound(typed);
    LongAlone(ToolConfig(posix), OPTIONS, typed, 0, more);
    StopsAt(posix, ["--" + typed] + more, LongOpt(0, None));
    StopAfterLine(posix, program, gs, ["--" + typed] + more);
  }

  lemma HelpFound(typed: string)
    requires typed <= "help" && typed != ""
    ensures Lookup(OPTIONS, typed) == Found(0) && '=' !in typed
  {
    forall j | 0 < j < |OPTIONS| ensures !(typed <= OPTIONS[j].name) {
      NamesDiffer(0, j);
      assert typed[0] == 'h';
    }
    OnlyPrefix(OPTIONS, typed, 0);
  }

  lemma StopsAt(posix: bool, args: seq<string>, e: Event)
    requires var es := ScanAll(ToolConfig(posix), args).events; es != [] && es[0] == e
    requires e.Error? || e == LongOpt(0, None)
    ensures var ts := TakenIn(posix, args);
      ts != [] && ts[0].code == if e.Error? then '?' as int else HELP
  {
    EventsWellFormed(ToolConfig(posix), args);
    hide ScanAll;
  }

  lemma StartsTwoNames(typed: string)
    requires typed in ["", "p", "m"]
    ensures Lookup(OPTIONS, typed) == Ambiguous
  {
    var i, j := if typed == "m" then 7 else 5, if typed == "m" then 8 else 9;
    assert Prefix(OPTIONS, typed, i) && Prefix(OPTIONS, typed, j);
    forall k: nat ensures !Exact(OPTIONS, typed, k) {
      if k < |OPTIONS| { NamesDiffer(k, (k + 1) % 10); }
    }
  }

  lemma NameAt(j: nat)
    requires j < |OPTIONS|
    ensures OPTIONS[j].name in
      ["help", "node", "coin", "address", "user", "password", "wallet", "method", "mining-addresses",
       "private-keys"]
  {}

  lemma NotOneOption(typed: string)
    requires typed in ["", "p", "m"] || forall n ::
      n in ["help", "node", "coin", "address", "user", "password", "wallet", "method", "mining-addresses",
            "private-keys"]
      ==> !(typed <= n)
    ensures !Lookup(OPTIONS, typed).Found?
  {
    if typed in ["", "p", "m"] {
      StartsTwoNames(typed);
    } else {
      UnrecognizedIff(OPTIONS, typed);
      forall o | o in OPTIONS ensures !(typed <= o.name) {
        var j: nat :| j < |OPTIONS| && OPTIONS[j] == o;
        NameAt(j);
      }
    }
  }

  /** A name that abbreviates no option, or several, is refused, with a value or without, whatever follows. */
  lemma UnfoundIsRefused(posix: bool, program: string, gs: seq<Given>, typed: string, suffix: string, more: seq<string>)
    requires AllSettings(gs) && '=' !in typed && if suffix == "" then typed != "" else suffix[0] == '='
    requires typed in ["", "p", "m"] || forall n ::
      n in ["help", "node", "coin", "address", "user", "password", "wallet", "method", "mining-addresses",
            "private-keys"]
      ==> !(typed <= n)
    ensures Meaning(posix, [program] + Line(gs) + (["--" + typed + suffix] + more)) == Refused
  {
    NotOneOption(typed);
    LongUnfound(ToolConfig(posix), OPTIONS, typed, suffix, more);
    var rest := ["--" + typed + suffix] + more;
    StopsAt(posix, rest, ScanAll(ToolConfig(posix), rest).events[0]);
    StopAfterLine(posix, program, gs, rest);
  }

  /** Help with a value is refused. */
  lemma HelpTakesNoValue(posix: bool, program: string, gs: seq<Given>, typed: string, v: string, more: seq<string>)
    requires AllSettings(gs) && typed <= "help" && typed != ""
    ensures Meaning(posix, [program] + Line(gs) + (["--" + typed + "=" + v] + more)) == Refused
  {
    HelpFound(typed);
    LongWithValue(ToolConfig(posix), OPTIONS, typed, v, 0, more);
    StopsAt(posix, ["--" + typed + "=" + v] + more, Error(ArgumentNotAllowed(0)));
    StopAfterLine(posix, program, gs, ["--" + typed + "=" + v] + more);
  }

  /** There are no option characters: any is refused. */
  lemma CharIsRefused(posix: bool, program: string, gs: seq<Given>, c: char, text: string, more: seq<string>)
    requires AllSettings(gs) && c != '-'
    ensures Meaning(posix, [program] + Line(gs) + (["-" + [c] + text] + more)) == Refused
  {
    var word, cfg := "-" + [c] + text, ToolConfig(posix);
    assert word[1..] == [c] + text && word[1] == c;
    AloneIsFirst(word, more);
    FirstOfCluster(cfg.shorts, c, text, more, Error(UnknownChar(c)));
    OneElement(cfg, word, more, ElementOf(cfg, [word] + more));
    StopsAt(posix, [word] + more, Error(UnknownChar(c)));
    StopAfterLine(posix, program, gs, [word] + more);
  }

  /** And so is a setting at the end without its value. */
  lemma LackingIsRefused(posix: bool, program: string, gs: seq<Given>, option: string, typed: string)
    requires AllSettings(gs) && IsSetting(option) && Abbreviates(typed, option)
    ensures Meaning(posix, [program] + Line(gs) + ["--" + typed]) == Refused
  {
    SettingFound(option, typed);
    LongAlone(ToolConfig(posix), OPTIONS, typed, CodeFor(option) - 1, []);
    assert ["--" + typed] + [] == ["--" + typed];
    StopsAt(posix, ["--" + typed], Error(LongArgumentMissing(CodeFor(option) - 1)));
    StopAfterLine(posix, program, gs, ["--" + typed]);
  }
}
