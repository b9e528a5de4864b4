/** Setting up backends, one statistics server per algorithm, and linking instances. */
module Registry {
  import opened Wrappers
  import opened NameIndex

  /** What the coin library says of a coin. */
  datatype Coin = Coin(name: string, algorithm: string, minimalConfirmations: nat)

  /** `algoMeta` is the position of its algorithm's server in the list of servers. */
  datatype Backend = Backend(coin: Coin, algoMeta: nat)

  ghost predicate InUse(coins: seq<Coin>, algorithm: string) {
    exists c :: c in coins && c.algorithm == algorithm
  }

  /** The servers and backends made so far belong together. */
  ghost predicate WiredUp(coins: seq<Coin>, backends: seq<Backend>, servers: seq<string>) {
    && |backends| == |coins|
    && (forall i :: 0 <= i < |coins| ==>
          backends[i].coin == coins[i] && backends[i].algoMeta < |servers|
          && servers[backends[i].algoMeta] == coins[i].algorithm)
    && (forall i, j :: 0 <= i < j < |servers| ==> servers[i] != servers[j])
    && (forall a :: a in servers ==> InUse(coins, a))
  }

  /** Threads reserved: a monitor, workers, two per coin, HTTP, and one more service. */
  function TotalThreads(workers: nat, coins: nat, http: nat): nat {
    1 + workers + coins * 2 + http + 1
  }

  // ----- a coin's configuration

  /** The coin library and the parsers of amounts and addresses. The library has no name for what it does
      not know, coin or algorithm. */
  datatype Library = Library(get: string -> Coin, isAmount: (Coin, string) -> bool, isAddress: (Coin, string) -> bool) {
    predicate Knows(name: string) {
      get(name).name != ""
    }
  }

  /** The parts of a coin's configuration that are checked; of a node, its type. */
  datatype CoinConfig = CoinConfig(name: string, defaultPayout: string, minimalPayout: string,
                                   confirmations: nat, addresses: seq<string>,
                                   workNodes: seq<string>, rpcNodes: seq<string>)

  datatype Refusal =
    | UnknownCoin
    | BadDefaultPayout
    | BadMinimalPayout
    | TooFewConfirmations(minimum: nat)
    | BadAddress(address: string)
    | UnknownNodeType(nodeType: string)
    | UnknownAlgorithm(algorithm: string)

  predicate KnownNode(nodeType: string) {
    nodeType == "bitcoinrpc" || nodeType == "ethereumrpc"
  }

  predicate AmountsFit(lib: Library, config: CoinConfig) {
    var coin := lib.get(config.name);
    && lib.isAmount(coin, config.defaultPayout) && lib.isAmount(coin, config.minimalPayout)
    && config.confirmations >= coin.minimalConfirmations
  }

  predicate AddressesFit(lib: Library, config: CoinConfig) {
    forall a :: a in config.addresses ==> lib.isAddress(lib.get(config.name), a)
  }

  /** Amounts, confirmations, mining addresses and node types are in order. */
  predicate InOrder(lib: Library, config: CoinConfig) {
    && AmountsFit(lib, config) && AddressesFit(lib, config)
    && forall t :: t in config.workNodes + config.rpcNodes ==> KnownNode(t)
  }

  predicate Accepts(lib: Library, config: CoinConfig) {
    lib.Knows(config.name) && InOrder(lib, config) && lib.Knows(lib.get(config.name).algorithm)
  }

  /** `x` stands before every other element of `s` that is not `ok`, and is not `ok` itself. */
  ghost predicate FirstNot(s: seq<string>, ok: string -> bool, x: string) {
    exists k :: 0 <= k < |s| && s[k] == x && !ok(x) && forall j :: 0 <= j < k ==> ok(s[j])
  }

  /** `why` is what is wrong first, in the order of the checks. */
  ghost predicate WrongFirst(lib: Library, config: CoinConfig, why: Refusal) {
    var coin := lib.get(config.name);
    (why.UnknownCoin? <==> !lib.Knows(config.name)) &&
    match why
    case UnknownCoin => true
    case BadDefaultPayout => !lib.isAmount(coin, config.defaultPayout)
    case BadMinimalPayout =>
      lib.isAmount(coin, config.defaultPayout) && !lib.isAmount(coin, config.minimalPayout)
    case TooFewConfirmations(m) =>
      && lib.isAmount(coin, config.defaultPayout) && lib.isAmount(coin, config.minimalPayout)
      && config.confirmations < m == coin.minimalConfirmations
    case BadAddress(a) => AmountsFit(lib, config) && FirstNot(config.addresses, x => lib.isAddress(coin, x), a)
    case UnknownNodeType(t) =>
      && AmountsFit(lib, config) && AddressesFit(lib, config)
      && FirstNot(config.workNodes + config.rpcNodes, KnownNode, t)
    case UnknownAlgorithm(a) => InOrder(lib, config) && a == coin.algorithm && !lib.Knows(a)
  }

  /** Acceptance in terms of the configuration and the library alone. */
  lemma AcceptsIff(lib: Library, config: CoinConfig)
    ensures Accepts(lib, config) <==>
      var coin := lib.get(config.name);
      && coin.name != ""
      && lib.isAmount(coin, config.defaultPayout) && lib.isAmount(coin, config.minimalPayout)
      && config.confirmations >= coin.minimalConfirmations
      && (forall a :: a in config.addresses ==> lib.isAddress(coin, a))
      && (forall t :: t in config.workNodes || t in config.rpcNodes ==> t == "bitcoinrpc" || t == "ethereumrpc")
      && lib.get(coin.algorithm).name != ""
  {
    forall t ensures t in config.workNodes + config.rpcNodes <==> t in config.workNodes || t in config.rpcNodes {}
  }

  /** The order of the checks: each reason holds if its own check fails and all before it passed. */
  lemma RefusedFor(lib: Library, config: CoinConfig, why: Refusal)
    requires WrongFirst(lib, config, why)
    ensures var coin := lib.get(config.name);
      if coin.name == "" then why == UnknownCoin
      else if !lib.isAmount(coin, config.defaultPayout) then why == BadDefaultPayout
      else if !lib.isAmount(coin, config.minimalPayout) then why == BadMinimalPayout
      else if config.confirmations < coin.minimalConfirmations then
        why == TooFewConfirmations(coin.minimalConfirmations)
      else if exists a :: a in config.addresses && !lib.isAddress(coin, a) then
        why.BadAddress? && why.address in config.addresses && !lib.isAddress(coin, why.address)
      else if exists t :: t in config.workNodes + config.rpcNodes && t != "bitcoinrpc" && t != "ethereumrpc" then
        why.UnknownNodeType? && why.nodeType in config.workNodes + config.rpcNodes
          && why.nodeType != "bitcoinrpc" && why.nodeType != "ethereumrpc"
      else why == UnknownAlgorithm(coin.algorithm) && lib.get(coin.algorithm).name == ""
  {}

  method FirstUnknownNode(nodes: seq<string>) returns (r: Option<string>)
    ensures r.None? <==> forall t :: t in nodes ==> KnownNode(t)
    ensures r.Some? ==> FirstNot(nodes, KnownNode, r.value)
  {
    for i := 0 to |nodes|
      invariant forall k :: 0 <= k < i ==> KnownNode(nodes[k])
    {
      if nodes[i] != "bitcoinrpc" && nodes[i] != "ethereumrpc" {
        assert FirstNot(nodes, KnownNode, nodes[i]);
        return Some(nodes[i]);
      }
    }
    return None;
  }

  lemma FirstOfBoth(a: seq<string>, b: seq<string>, ok: string -> bool, x: string)
    requires FirstNot(a, ok, x) || ((forall y :: y in a ==> ok(y)) && FirstNot(b, ok, x))
    ensures FirstNot(a + b, ok, x)
  {
    if FirstNot(a, ok, x) {
      var k :| 0 <= k < |a| && a[k] == x && !ok(x) && forall j :: 0 <= j < k ==> ok(a[j]);
      assert (a + b)[k] == x;
    } else {
      var k :| 0 <= k < |b| && b[k] == x && !ok(x) && forall j :: 0 <= j < k ==> ok(b[j]);
      assert (a + b)[|a| + k] == x;
    }
  }

  /** The checks on one coin's configuration before its backend is made. */
  method CheckConfig(lib: Library, config: CoinConfig) returns (r: Option<Refusal>)
    requires lib.Knows(config.name)
    ensures r.None? <==> InOrder(lib, config)
    ensures r.Some? ==> WrongFirst(lib, config, r.value) && !r.value.UnknownCoin? && !r.value.UnknownAlgorithm?
  {
    var coin := lib.get(config.name);
    if !lib.isAmount(coin, config.defaultPayout) {
      return Some(BadDefaultPayout);
    }
    if !lib.isAmount(coin, config.minimalPayout) {
      return Some(BadMinimalPayout);
    }
    if config.confirmations < coin.minimalConfirmations {
      return Some(TooFewConfirmations(coin.minimalConfirmations));
    }
    for i := 0 to |config.addresses|
      invariant forall k :: 0 <= k < i ==> lib.isAddress(coin, config.addresses[k])
    {
      if !lib.isAddress(coin, config.addresses[i]) {
        return Some(BadAddress(config.addresses[i]));
      }
    }
    var t := FirstUnknownNode(config.workNodes);
    if t.None? {
      t := FirstUnknownNode(config.rpcNodes);
    }
    if t.Some? {
      FirstOfBoth(config.workNodes, config.rpcNodes, KnownNode, t.value);
      return Some(UnknownNodeType(t.value));
    }
    return None;
  }

  /** What is wrong first is one thing, and nothing is wrong with a configuration that is accepted. */
  lemma OneReason(lib: Library, config: CoinConfig, why: Refusal, other: Refusal)
    requires WrongFirst(lib, config, why)
    ensures !Accepts(lib, config)
    ensures WrongFirst(lib, config, other) ==> other == why
  {}

  // ----- backends and servers

  function CoinsOf(lib: Library, configs: seq<CoinConfig>): seq<Coin> {
    seq(|configs|, i requires 0 <= i < |configs| => lib.get(configs[i].name))
  }

  datatype Built = Refused(i: nat, why: Refusal) | Built(backends: seq<Backend>, servers: seq<string>)

  /** Looks up every coin before anything else is done. */
  method LookUpCoins(configs: seq<CoinConfig>, lib: Library) returns (coins: seq<Coin>)
    ensures coins <= CoinsOf(lib, configs) && forall k :: 0 <= k < |coins| ==> lib.Knows(configs[k].name)
    ensures |coins| < |configs| ==> !lib.Knows(configs[|coins|].name)
  {
    coins := [];
    for i := 0 to |configs|
      invariant coins == CoinsOf(lib, configs)[..i] && forall k :: 0 <= k < i ==> lib.Knows(configs[k].name)
    {
      var coin := lib.get(configs[i].name);
      if coin.name == "" {
        return;
      }
      coins := coins + [coin];
    }
  }

  /** `why` is the first thing wrong with configuration `i`, and nothing was wrong before it: every coin is
      looked up before the first configuration is checked. */
  ghost predicate FailsAt(configs: seq<CoinConfig>, lib: Library, i: nat, why: Refusal) {
    && i < |configs| && WrongFirst(lib, configs[i], why)
    && (why.UnknownCoin? ==> forall k :: 0 <= k < i ==> lib.Knows(configs[k].name))
    && (!why.UnknownCoin? ==> forall c :: c in configs ==> lib.Knows(c.name))
    && (!why.UnknownCoin? ==> forall k :: 0 <= k < i ==> Accepts(lib, configs[k]))
  }

  /** Checks each configuration and creates a backend for it, and a server the first time an algorithm is
      seen. `servers[k]` is the algorithm the k-th server was made for. */
  method MakeBackends(configs: seq<CoinConfig>, lib: Library, coins: seq<Coin>) returns (r: Built)
    requires coins == CoinsOf(lib, configs) && forall c :: c in configs ==> lib.Knows(c.name)
    ensures match r
      case Refused(i, why) => !why.UnknownCoin? && FailsAt(configs, lib, i, why)
      case Built(backends, servers) =>
        WiredUp(coins, backends, servers) && forall c :: c in configs ==> Accepts(lib, c)
  {
    var knownAlgo: map<string, nat> := map[];
    var backends, servers := [], [];
    assert WiredUp(coins[..0], backends, servers);
    hide WiredUp, InOrder, WrongFirst;
    for i := 0 to |coins|
      invariant |backends| == i
      invariant WiredUp(coins[..i], backends, servers)
      invariant forall k :: 0 <= k < i ==> Accepts(lib, configs[k])
      invariant forall a :: a in knownAlgo <==> a in servers
      invariant forall a :: a in knownAlgo ==> knownAlgo[a] < |servers| && servers[knownAlgo[a]] == a
    {
      var coin := coins[i];
      ghost var was := coins[..i];
      assert coins[..i + 1] == was + [coin];
      var wrong := CheckConfig(lib, configs[i]);
      if wrong.Some? {
        return Refused(i, wrong.value);
      }
      if coin.algorithm !in knownAlgo {
        if !lib.Knows(coin.algorithm) {
          return Refused(i, UnknownAlgorithm(coin.algorithm));
        }
        knownAlgo := knownAlgo[coin.algorithm := |servers|];
        servers := servers + [coin.algorithm];
      } else {
        SeenIsKnown(was, backends, servers, lib, coin.algorithm);
      }
      ghost var before := backends;
      backends := backends + [Backend(coin, knownAlgo[coin.algorithm])];
      assert backends[..i] == before;
      LinkOneMore(was, coin, backends, servers);
    }
    assert coins[..|coins|] == coins;
    r := Built(backends, servers);
  }

  /** Looks up the coins, then makes their backends and servers. */
  method SetUp(configs: seq<CoinConfig>, lib: Library) returns (r: Built)
    ensures match r
      case Refused(i, why) => FailsAt(configs, lib, i, why)
      case Built(backends, servers) =>
        WiredUp(CoinsOf(lib, configs), backends, servers) && forall c :: c in configs ==> Accepts(lib, c)
    ensures r.Built? <==> forall c :: c in configs ==>
      var coin := lib.get(c.name);
      && coin.name != "" && lib.isAmount(coin, c.defaultPayout) && lib.isAmount(coin, c.minimalPayout)
      && c.confirmations >= coin.minimalConfirmations && (forall a :: a in c.addresses ==> lib.isAddress(coin, a))
      && (forall t :: t in c.workNodes || t in c.rpcNodes ==> t == "bitcoinrpc" || t == "ethereumrpc")
      && lib.get(coin.algorithm).name != ""
  {
    forall c {
      AcceptsIff(lib, c);
    }
    var coins := LookUpCoins(configs, lib);
    if |coins| < |configs| {
      OneReason(lib, configs[|coins|], UnknownCoin, UnknownCoin);
      return Refused(|coins|, UnknownCoin);
    }
    r := MakeBackends(configs, lib, coins);
    if r.Refused? { OneReason(lib, configs[r.i], r.why, r.why); }
  }

  lemma AlgorithmsKnown(configs: seq<CoinConfig>, lib: Library)
    requires forall c :: c in configs ==> Accepts(lib, c)
    ensures forall c :: c in CoinsOf(lib, configs) ==> lib.Knows(c.algorithm)
  {
    forall c | c in CoinsOf(lib, configs) ensures lib.Knows(c.algorithm) {
      var i :| 0 <= i < |configs| && CoinsOf(lib, configs)[i] == c;
      assert Accepts(lib, configs[i]);
    }
  }

  lemma SeenIsKnown(coins: seq<Coin>, backends: seq<Backend>, servers: seq<string>, lib: Library, a: string)
    requires WiredUp(coins, backends, servers) && a in servers
    requires forall c :: c in coins ==> lib.Knows(c.algorithm)
    ensures lib.Knows(a)
  {
    var c :| c in coins && c.algorithm == a;
  }

  lemma LinkOneMore(coins: seq<Coin>, coin: Coin, backends: seq<Backend>, servers: seq<string>)
    requires backends != [] && |backends| == |coins| + 1
    requires var b := backends[|coins|];
      b.coin == coin && b.algoMeta < |servers| && servers[b.algoMeta] == coin.algorithm
    requires WiredUp(coins, backends[..|coins|], servers)
      || (servers != [] && servers[|servers| - 1] == coin.algorithm && coin.algorithm !in servers[..|servers| - 1]
          && WiredUp(coins, backends[..|coins|], servers[..|servers| - 1]))
    ensures WiredUp(coins + [coin], backends, servers)
  {
    forall a | a in servers ensures InUse(coins + [coin], a) {
      if a == coin.algorithm {
        assert coin in coins + [coin];
      } else {
        assert a in servers[..|servers| - 1] || a == servers[|servers| - 1];
        var c :| c in coins && c.algorithm == a;
        assert c in coins + [coin];
      }
    }
  }

  /** There is exactly one server for each algorithm in use. */
  lemma OneServerPerAlgorithm(coins: seq<Coin>, backends: seq<Backend>, servers: seq<string>, c: Coin)
    requires WiredUp(coins, backends, servers) && c in coins
    ensures exists k :: 0 <= k < |servers| && IsOnlyServer(servers, c.algorithm, k)
  {
    var i :| 0 <= i < |coins| && coins[i] == c;
    assert IsOnlyServer(servers, c.algorithm, backends[i].algoMeta);
  }

  predicate IsOnlyServer(servers: seq<string>, algorithm: string, k: nat)
    requires k < |servers|
  {
    servers[k] == algorithm && forall j :: 0 <= j < |servers| && servers[j] == algorithm ==> j == k
  }

  /** Distinct algorithms are no more than the coins that use them. */
  lemma {:induction false} ServersFit(coins: seq<Coin>, servers: seq<string>)
    requires forall i, j :: 0 <= i < j < |servers| ==> servers[i] != servers[j]
    requires forall a :: a in servers ==> InUse(coins, a)
    ensures |servers| <= |coins|
  {
    if servers == [] {
    } else {
      var last, rest := servers[|servers| - 1], servers[..|servers| - 1];
      assert last in servers;
      var c :| c in coins && c.algorithm == last;
      var i :| 0 <= i < |coins| && coins[i] == c;
      var others := coins[..i] + coins[i + 1..];
      assert coins == coins[..i] + [c] + coins[i + 1..];
      forall a | a in rest ensures InUse(others, a) {
        assert a in servers && a != last;
        var d :| d in coins && d.algorithm == a;
        assert d in others;
      }
      ServersFit(others, rest);
    }
  }

  lemma ThreadsSuffice(coins: seq<Coin>, backends: seq<Backend>, servers: seq<string>, workers: nat, http: nat)
    requires WiredUp(coins, backends, servers)
    ensures 1 + workers + |backends| + |servers| + http + 1 <= TotalThreads(workers, |coins|, http)
  {
    ServersFit(coins, servers);
  }

  predicate AlgorithmsDiffer(coins: seq<Coin>) {
    forall i, j :: 0 <= i < j < |coins| ==> coins[i].algorithm != coins[j].algorithm
  }

  lemma {:induction false} AlgorithmsFit(coins: seq<Coin>, servers: seq<string>)
    requires AlgorithmsDiffer(coins) && forall c :: c in coins ==> c.algorithm in servers
    ensures |coins| <= |servers|
  {
    if coins == [] {
    } else {
      var last, rest := coins[|coins| - 1], coins[..|coins| - 1];
      assert last in coins;
      var k :| 0 <= k < |servers| && servers[k] == last.algorithm;
      var others := servers[..k] + servers[k + 1..];
      forall c | c in rest ensures c.algorithm in others {
        assert c in coins && c.algorithm != last.algorithm;
        assert servers == servers[..k] + [servers[k]] + servers[k + 1..];
      }
      AlgorithmsFit(rest, others);
    }
  }

  lemma SharedAlgorithmSpares(coins: seq<Coin>, servers: seq<string>)
    requires !AlgorithmsDiffer(coins)
    requires forall i, j :: 0 <= i < j < |servers| ==> servers[i] != servers[j]
    requires forall a :: a in servers ==> InUse(coins, a)
    ensures |servers| < |coins|
  {
    var i, j :| 0 <= i < j < |coins| && coins[i].algorithm == coins[j].algorithm;
    var others := coins[..j] + coins[j + 1..];
    assert coins == coins[..j] + [coins[j]] + coins[j + 1..] && others[i] == coins[i];
    forall a | a in servers ensures InUse(others, a) {
      var c :| c in coins && c.algorithm == a;
      if c == coins[j] { assert others[i] in others; } else { assert c in others; }
    }
    ServersFit(others, servers);
  }

  /** The reserved number is not too large: all of it is used exactly when no two coins share an algorithm. */
  lemma AllThreadsUsedIff(coins: seq<Coin>, backends: seq<Backend>, servers: seq<string>, workers: nat, http: nat)
    requires WiredUp(coins, backends, servers)
    ensures 1 + workers + |backends| + |servers| + http + 1 == TotalThreads(workers, |coins|, http)
      <==> forall i, j :: 0 <= i < j < |coins| ==> coins[i].algorithm != coins[j].algorithm
  {
    ServersFit(coins, servers);
    if AlgorithmsDiffer(coins) {
      forall c | c in coins ensures c.algorithm in servers {
        var i :| 0 <= i < |coins| && coins[i] == c;
        assert servers[backends[i].algoMeta] == c.algorithm;
      }
      AlgorithmsFit(coins, servers);
    } else {
      SharedAlgorithmSpares(coins, servers);
    }
  }

  // ----- instances

  /** The index start-up sorts and searches: one entry per backend, by name. */
  function Entries(backends: seq<Backend>): seq<Entry> {
    seq(|backends|, i requires 0 <= i < |backends| => Entry(backends[i].coin.name, i))
  }

  ghost predicate Indexes(index: seq<Entry>, backends: seq<Backend>) {
    Sorted(index) && multiset(index) == multiset(Entries(backends))
  }

  lemma EntryIsBackend(index: seq<Entry>, backends: seq<Backend>, e: Entry)
    requires Indexes(index, backends) && e in index
    ensures e.id < |backends| && backends[e.id].coin.name == e.name
  {
    assert e in multiset(index) && e in multiset(Entries(backends));
    var i :| 0 <= i < |backends| && Entries(backends)[i] == e;
  }

  lemma BackendIsEntered(backends: seq<Backend>)
    ensures forall b :: b in backends ==> exists e :: e in Entries(backends) && e.name == b.coin.name
  {
    forall b | b in backends ensures exists e :: e in Entries(backends) && e.name == b.coin.name {
      var i :| 0 <= i < |backends| && backends[i] == b;
      assert Entries(backends)[i] in Entries(backends) && Entries(backends)[i].name == b.coin.name;
    }
  }

  function Lookup(index: seq<Entry>, backends: seq<Backend>, name: string): (r: Option<Backend>)
    requires Indexes(index, backends)
    ensures r.None? ==> forall b :: b in backends ==> b.coin.name != name
    ensures r.Some? ==> r.value in backends && r.value.coin.name == name
  {
    FindInSorted(Entries(backends), index, name);
    match Find(index, name)
    case None =>
      BackendIsEntered(backends);
      None
    case Some(e) =>
      assert e in index by { assert e in multiset(Entries(backends)) && e in multiset(index); }
      EntryIsBackend(index, backends, e);
      Some(backends[e.id])
  }

  /** No two algorithms differ, unless the earlier one is empty. */
  predicate OneAlgorithm(algos: seq<string>) {
    forall i, j :: 0 <= i < j < |algos| ==> algos[i] == "" || algos[j] == algos[i]
  }

  /** What an instance is given: its backends in the order named, and the statistics server set last. */
  datatype Link = MissingCoin(name: string) | MixedAlgorithms | Linked(found: seq<Backend>, algoMeta: Option<nat>)

  /** What the index holds for each name, when it holds all of them. */
  ghost predicate AllFound(index: seq<Entry>, backends: seq<Backend>, names: seq<string>, found: seq<Backend>)
    requires Indexes(index, backends)
  {
    && |found| == |names|
    && forall i :: 0 <= i < |names| ==> Lookup(index, backends, names[i]) == Some(found[i])
  }

  function Algorithms(found: seq<Backend>): seq<string> {
    seq(|found|, i requires 0 <= i < |found| => found[i].coin.algorithm)
  }

  function LastMeta(found: seq<Backend>): Option<nat> {
    if found == [] then None else Some(found[|found| - 1].algoMeta)
  }

  /** What linking `names` to the indexed backends must say. */
  ghost predicate LinkSays(index: seq<Entry>, backends: seq<Backend>, names: seq<string>, r: Link)
    requires Indexes(index, backends)
  {
    match r
    case MissingCoin(name) => name in names && forall b :: b in backends ==> b.coin.name != name
    case MixedAlgorithms =>
      exists found :: AllFound(index, backends, names, found) && !OneAlgorithm(Algorithms(found))
    case Linked(found, meta) =>
      AllFound(index, backends, names, found) && OneAlgorithm(Algorithms(found)) && meta == LastMeta(found)
  }

  /** Looks up each linked coin, then checks the algorithms against each other while setting the
      instance's statistics server. */
  method LinkInstance(index: seq<Entry>, backends: seq<Backend>, names: seq<string>) returns (r: Link)
    requires Indexes(index, backends)
    ensures LinkSays(index, backends, names, r)
  {
    var found: seq<Backend> := [];
    for i := 0 to |names|
      invariant AllFound(index, backends, names[..i], found)
    {
      var b := Lookup(index, backends, names[i]);
      if b.None? {
        return MissingCoin(names[i]);
      }
      found := found + [b.value];
    }
    assert names[..|names|] == names;
    hide AllFound, Indexes, Lookup, Sorted;
    var same, meta := CheckAlgorithms(found);
    return if same then Linked(found, meta) else MixedAlgorithms;
  }

  method CheckAlgorithms(found: seq<Backend>) returns (ok: bool, meta: Option<nat>)
    ensures ok == OneAlgorithm(Algorithms(found))
    ensures ok <==> forall i, j :: 0 <= i < j < |found| ==>
      found[i].coin.algorithm == "" || found[j].coin.algorithm == found[i].coin.algorithm
    ensures ok ==> meta == if found == [] then None else Some(found[|found| - 1].algoMeta)
  {
    ghost var algos := Algorithms(found);
    var algo := "";
    meta := None;
    for i := 0 to |found|
      invariant OneAlgorithm(algos[..i])
      invariant algo == if i == 0 then "" else algos[i - 1]
      invariant meta == LastMeta(found[..i])
    {
      if algo != "" && found[i].coin.algorithm != algo {
        assert algos[i - 1] == algo && algos[i] != algo;
        return false, meta;
      }
      forall k | 0 <= k < i ensures algos[k] == "" || algos[i] == algos[k] {
        if k < i - 1 { assert algos[..i][k] == "" || algos[..i][i - 1] == algos[..i][k]; }
      }
      algo := found[i].coin.algorithm;
      meta := Some(found[i].algoMeta);
    }
    assert algos[..|found|] == algos && found[..|found|] == found;
    assert forall k :: 0 <= k < |found| ==> algos[k] == found[k].coin.algorithm;
    return true, meta;
  }

  predicate AllSame(algos: seq<string>) {
    forall i, j :: 0 <= i < |algos| && 0 <= j < |algos| ==> algos[i] == algos[j]
  }

  /** The check accepts more than lists of one algorithm: exactly those in which backends without any
      algorithm come before the others as well. */
  lemma AcceptedIffSame(algos: seq<string>)
    ensures AllSame(algos) <==> OneAlgorithm(algos) && ("" in algos ==> forall a :: a in algos ==> a == "")
  {
    if OneAlgorithm(algos) && ("" in algos ==> forall a :: a in algos ==> a == "") {
      forall i, j | 0 <= i < |algos| && 0 <= j < |algos| ensures algos[i] == algos[j] {
        assert algos[i] in algos && algos[j] in algos;
      }
    }
  }

  /** The backends, and the instance with them, share the statistics server of one non-empty algorithm. */
  ghost predicate SharesOneServer(link: Link, servers: seq<string>)
    requires link.Linked?
  {
    match link.algoMeta
    case None => link.found == []
    case Some(k) =>
      && link.found != [] && k < |servers| && servers[k] != ""
      && forall b :: b in link.found ==> b.algoMeta == k && b.coin.algorithm == servers[k]
  }

  /** Linked backends share one statistics server exactly when they share one algorithm. */
  lemma SameServerIffSameAlgorithm(coins: seq<Coin>, backends: seq<Backend>, servers: seq<string>, found: seq<Backend>)
    requires WiredUp(coins, backends, servers) && forall b :: b in found ==> b in backends
    ensures AllSame(Algorithms(found)) <==>
      forall i, j :: 0 <= i < |found| && 0 <= j < |found| ==> found[i].algoMeta == found[j].algoMeta
  {
    forall i, j | 0 <= i < |found| && 0 <= j < |found|
      ensures Algorithms(found)[i] == Algorithms(found)[j] <==> found[i].algoMeta == found[j].algoMeta
    {
      assert found[i] in backends && found[j] in backends;
    }
  }

  /** Every accepted instance links only backends of one non-empty algorithm, which share one statistics
      server with it; all that is needed of the coin library is that it knows no algorithm without a name. */
  lemma LinkedShareOneServer(coins: seq<Coin>, lib: Library, backends: seq<Backend>, servers: seq<string>,
                             found: seq<Backend>)
    requires WiredUp(coins, backends, servers)
    requires (forall c :: c in coins ==> lib.Knows(c.algorithm)) && !lib.Knows("")
    requires (forall b :: b in found ==> b in backends) && OneAlgorithm(Algorithms(found))
    ensures SharesOneServer(Linked(found, LastMeta(found)), servers)
    ensures forall b, c :: b in found && c in found ==>
      b.algoMeta == c.algoMeta && b.coin.algorithm == c.coin.algorithm != ""
  {
    forall b | b in found
      ensures b.algoMeta < |servers| && servers[b.algoMeta] == b.coin.algorithm != ""
    {
      var i :| 0 <= i < |backends| && backends[i] == b;
      assert coins[i] in coins;
    }
    var algos := Algorithms(found);
    assert forall k :: 0 <= k < |found| ==> found[k] in found && algos[k] == found[k].coin.algorithm;
    AcceptedIffSame(algos);
    SameServerIffSameAlgorithm(coins, backends, servers, found);
    forall b | b in found ensures b.algoMeta == found[|found| - 1].algoMeta {
      var k :| 0 <= k < |found| && found[k] == b;
    }
  }

  // ----- the whole of it

  datatype StartUp =
    | Unbuilt(reason: Built)
    | BadInstance(k: nat, link: Link)
    | Running(backends: seq<Backend>, servers: seq<string>, instances: seq<Link>)

  /** An instance was linked to a backend of every name it lists, in order, and passed the check. */
  ghost predicate LinkedByName(link: Link, backends: seq<Backend>, names: seq<string>) {
    && link.Linked? && |link.found| == |names| && OneAlgorithm(Algorithms(link.found))
    && forall i :: 0 <= i < |names| ==> link.found[i] in backends && link.found[i].coin.name == names[i]
  }

  /** `found` has a backend of one of the coins for each name, in order. */
  ghost predicate NamedBackends(coins: seq<Coin>, names: seq<string>, found: seq<Backend>) {
    && |found| == |names|
    && forall i :: 0 <= i < |names| ==> found[i].coin in coins && found[i].coin.name == names[i]
  }

  /** An instance is refused for a name that no coin has, or because its coins' backends have different
      algorithms. */
  ghost predicate RefusedRightly(coins: seq<Coin>, names: seq<string>, link: Link) {
    match link
    case MissingCoin(name) => name in names && forall c :: c in coins ==> c.name != name
    case MixedAlgorithms => exists found :: NamedBackends(coins, names, found) && !OneAlgorithm(Algorithms(found))
    case Linked(_, _) => false
  }

  lemma FoundAreNamed(coins: seq<Coin>, backends: seq<Backend>, servers: seq<string>, index: seq<Entry>,
                      names: seq<string>, found: seq<Backend>)
    requires WiredUp(coins, backends, servers) && Indexes(index, backends)
    requires AllFound(index, backends, names, found)
    ensures NamedBackends(coins, names, found) && forall b :: b in found ==> b in backends
  {}

  lemma RefusalIsRight(coins: seq<Coin>, backends: seq<Backend>, servers: seq<string>, index: seq<Entry>,
                       names: seq<string>, link: Link)
    requires WiredUp(coins, backends, servers) && Indexes(index, backends)
    requires LinkSays(index, backends, names, link) && !link.Linked?
    ensures RefusedRightly(coins, names, link)
  {
    if link.MissingCoin? {
      forall c | c in coins ensures c.name != link.name {
        var i :| 0 <= i < |coins| && coins[i] == c;
        assert backends[i] in backends;
      }
    } else {
      var found :| AllFound(index, backends, names, found) && !OneAlgorithm(Algorithms(found));
      FoundAreNamed(coins, backends, servers, index, names, found);
    }
  }

  lemma LinkIsRight(coins: seq<Coin>, lib: Library, backends: seq<Backend>, servers: seq<string>,
                    index: seq<Entry>, names: seq<string>, link: Link)
    requires WiredUp(coins, backends, servers) && Indexes(index, backends)
    requires forall c :: c in coins ==> lib.Knows(c.algorithm)
    requires LinkSays(index, backends, names, link) && link.Linked?
    ensures LinkedByName(link, backends, names)
    ensures !lib.Knows("") ==> SharesOneServer(link, servers)
  {
    FoundAreNamed(coins, backends, servers, index, names, link.found);
    if !lib.Knows("") { LinkedShareOneServer(coins, lib, backends, servers, link.found); }
  }

  /** Backends, then their index, then every instance; the first failure ends start-up. */
  method Start(configs: seq<CoinConfig>, lib: Library, instances: seq<seq<string>>) returns (r: StartUp)
    ensures r.Unbuilt? ==> r.reason.Refused? && FailsAt(configs, lib, r.reason.i, r.reason.why)
    ensures r.Unbuilt? <==> exists c :: c in configs && !Accepts(lib, c)
    ensures r.BadInstance? ==>
      r.k < |instances| && RefusedRightly(CoinsOf(lib, configs), instances[r.k], r.link)
    ensures r.Running? ==>
      && WiredUp(CoinsOf(lib, configs), r.backends, r.servers) && |r.instances| == |instances|
      && forall k :: 0 <= k < |instances| ==> LinkedByName(r.instances[k], r.backends, instances[k])
    ensures r.Running? && !lib.Knows("") ==>
      forall k :: 0 <= k < |instances| ==> r.instances[k].Linked? && SharesOneServer(r.instances[k], r.servers)
  {
    ghost var coins := CoinsOf(lib, configs);
    var built := SetUp(configs, lib);
    if built.Refused? {
      OneReason(lib, configs[built.i], built.why, built.why);
      return Unbuilt(built);
    }
    AlgorithmsKnown(configs, lib);
    var backends, servers := built.backends, built.servers;
    var index := SortByName(Entries(backends));
    var links: seq<Link> := [];
    hide WiredUp, LinkSays, RefusedRightly, LinkedByName, SharesOneServer, Accepts, FailsAt, Entries, Sorted;
    for k := 0 to |instances|
      invariant |links| == k
      invariant forall j :: 0 <= j < k ==> links[j].Linked? && LinkedByName(links[j], backends, instances[j])
      invariant !lib.Knows("") ==>
        forall j :: 0 <= j < k ==> links[j].Linked? && SharesOneServer(links[j], servers)
    {
      var link := LinkInstance(index, backends, instances[k]);
      if !link.Linked? {
        RefusalIsRight(coins, backends, servers, index, instances[k], link);
        return BadInstance(k, link);
      }
      LinkIsRight(coins, lib, backends, servers, index, instances[k], link);
      links := links + [link];
    }
    r := Running(backends, servers, links);
  }
}
