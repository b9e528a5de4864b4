/** User fee plans: the tree the server writes, and the parser that reads it back. */
module FeePlan {
  import opened Wrappers
  import opened OptionTable

  datatype Json =
    | Null
    | Bool(b: bool)
    | Number(x: real)
    | Str(s: string)
    | Arr(items: seq<Json>)
    | Obj(members: seq<(string, Json)>)

  /** The first member of that name. */
  function Member(ms: seq<(string, Json)>, name: string): Option<Json> {
    if ms == [] then None
    else if ms[0].0 == name then Some(ms[0].1)
    else Member(ms[1..], name)
  }

  /** What stands before does not count unless it has the name, and what stands after not at all. */
  lemma {:induction false} FirstMemberCounts(before: seq<(string, Json)>, name: string, v: Json,
                                             after: seq<(string, Json)>)
    requires forall m :: m in before ==> m.0 != name
    ensures Member(before, name) == None && Member(before + [(name, v)] + after, name) == Some(v)
  {
    if before == [] {
      assert [] + [(name, v)] + after == [(name, v)] + after;
    } else {
      FirstMemberCounts(before[1..], name, v, after);
      assert (before + [(name, v)] + after)[1..] == before[1..] + [(name, v)] + after;
    }
  }

  datatype FeePair = FeePair(userId: string, percentage: real)
  datatype CoinFee = CoinFee(coin: string, config: seq<FeePair>)
  datatype Plan = Plan(id: string, defaults: seq<FeePair>, coins: seq<CoinFee>)

  // ----- writing

  function PairTree(p: FeePair): Json {
    Obj([("userId", Str(p.userId)), ("percentage", Number(p.percentage))])
  }

  function ConfigTree(config: seq<FeePair>): Json {
    Arr(seq(|config|, i requires 0 <= i < |config| => PairTree(config[i])))
  }

  function CoinTree(c: CoinFee): Json {
    Obj([("coin", Str(c.coin)), ("config", ConfigTree(c.config))])
  }

  function PlanMembers(p: Plan): seq<(string, Json)> {
    [("feePlanId", Str(p.id)),
     ("default", ConfigTree(p.defaults)),
     ("coinSpecificFee", Arr(seq(|p.coins|, i requires 0 <= i < |p.coins| => CoinTree(p.coins[i]))))]
  }

  method WriteConfig(config: seq<FeePair>) returns (tree: Json)
    ensures tree == ConfigTree(config)
  {
    var cfg: seq<Json> := [];
    for i := 0 to |config|
      invariant |cfg| == i && forall k :: 0 <= k < i ==> cfg[k] == PairTree(config[k])
    {
      cfg := cfg + [Obj([("userId", Str(config[i].userId)), ("percentage", Number(config[i].percentage))])];
    }
    tree := Arr(cfg);
  }

  method WritePlan(plan: Plan) returns (tree: Json)
    ensures tree == Obj(PlanMembers(plan))
  {
    var defaults := WriteConfig(plan.defaults);
    var coins: seq<Json> := [];
    for i := 0 to |plan.coins|
      invariant |coins| == i && forall k :: 0 <= k < i ==> coins[k] == CoinTree(plan.coins[k])
    {
      var config := WriteConfig(plan.coins[i].config);
      coins := coins + [Obj([("coin", Str(plan.coins[i].coin)), ("config", config)])];
    }
    assert coins == PlanMembers(plan)[2].1.items;
    tree := Obj([("feePlanId", Str(plan.id)), ("default", defaults), ("coinSpecificFee", Arr(coins))]);
  }

  // ----- what a document must look like, and what it then says

  predicate HasString(ms: seq<(string, Json)>, name: string) {
    var m := Member(ms, name);
    m.Some? && m.value.Str?
  }

  /** A string member as a C string: up to the first NUL. */
  function StringOf(ms: seq<(string, Json)>, name: string): string
    requires HasString(ms, name)
  {
    Cut(Member(ms, name).value.s)
  }

  function Cut(s: string): string {
    s[..IndexOf(s, '\0')]
  }

  predicate PairSchema(v: Json) {
    && v.Obj? && HasString(v.members, "userId")
    && var m := Member(v.members, "percentage");
       m.Some? && m.value.Number?
  }

  function PairOf(v: Json): FeePair
    requires PairSchema(v)
  {
    FeePair(StringOf(v.members, "userId"), Member(v.members, "percentage").value.x)
  }

  predicate HasArray(ms: seq<(string, Json)>, name: string) {
    var m := Member(ms, name);
    m.Some? && m.value.Arr?
  }

  function ArrayOf(ms: seq<(string, Json)>, name: string): seq<Json>
    requires HasArray(ms, name)
  {
    Member(ms, name).value.items
  }

  predicate ConfigSchema(ms: seq<(string, Json)>, name: string) {
    HasArray(ms, name) && forall v :: v in ArrayOf(ms, name) ==> PairSchema(v)
  }

  function PairsOf(vs: seq<Json>): seq<FeePair>
    requires forall v :: v in vs ==> PairSchema(v)
  {
    seq(|vs|, i requires 0 <= i < |vs| => PairOf(vs[i]))
  }

  predicate CoinSchema(v: Json) {
    v.Obj? && HasString(v.members, "coin") && ConfigSchema(v.members, "config")
  }

  function CoinOf(v: Json): CoinFee
    requires CoinSchema(v)
  {
    CoinFee(StringOf(v.members, "coin"), PairsOf(ArrayOf(v.members, "config")))
  }

  /** A `coinSpecificFee` that is not an array counts as absent. */
  function CoinItems(ms: seq<(string, Json)>): seq<Json> {
    if HasArray(ms, "coinSpecificFee") then ArrayOf(ms, "coinSpecificFee") else []
  }

  predicate PlanSchema(ms: seq<(string, Json)>) {
    && HasString(ms, "id") && HasString(ms, "feePlanId") && ConfigSchema(ms, "default")
    && forall v :: v in CoinItems(ms) ==> CoinSchema(v)
  }

  /** What the API documentation asks for: as `PlanSchema`, but a `coinSpecificFee` that is there must be
      an array. */
  predicate Documented(ms: seq<(string, Json)>) {
    && HasString(ms, "id") && HasString(ms, "feePlanId") && ConfigSchema(ms, "default")
    && (Member(ms, "coinSpecificFee").Some? ==>
          && HasArray(ms, "coinSpecificFee")
          && forall v :: v in ArrayOf(ms, "coinSpecificFee") ==> CoinSchema(v))
  }

  function PlanOf(ms: seq<(string, Json)>): Plan
    requires PlanSchema(ms)
  {
    var items := CoinItems(ms);
    Plan(StringOf(ms, "feePlanId"), PairsOf(ArrayOf(ms, "default")),
         seq(|items|, i requires 0 <= i < |items| => CoinOf(items[i])))
  }

  // ----- the parser

  method ParseString(ms: seq<(string, Json)>, name: string, validAcc: bool) returns (out: string, valid: bool)
    ensures valid == (validAcc && HasString(ms, name))
    ensures HasString(ms, name) ==> out == StringOf(ms, name)
  {
    out, valid := "", validAcc;
    var m := Member(ms, name);
    if m.Some? && m.value.Str? {
      out := Cut(m.value.s);
    } else {
      valid := false;
    }
  }

  method ParseConfig(ms: seq<(string, Json)>, name: string, validAcc: bool)
    returns (config: seq<FeePair>, valid: bool)
    ensures valid == (validAcc && ConfigSchema(ms, name))
    ensures valid ==> config == PairsOf(ArrayOf(ms, name))
  {
    config, valid := [], validAcc;
    if !HasArray(ms, name) {
      return config, false;
    }
    var pairs := ArrayOf(ms, name);
    for i := 0 to |pairs|
      invariant |config| == i
      invariant valid == (validAcc && forall k :: 0 <= k < i ==> PairSchema(pairs[k]))
      invariant valid ==> forall k :: 0 <= k < i ==> config[k] == PairOf(pairs[k])
    {
      if !pairs[i].Obj? {
        assert pairs[i] in pairs;
        return config, false;
      }
      var fields := pairs[i].members;
      var userId;
      userId, valid := ParseString(fields, "userId", valid);
      var m, percentage := Member(fields, "percentage"), 0.0;
      if m.Some? && m.value.Number? {
        percentage := m.value.x;
      } else {
        valid := false;
      }
      config := config + [FeePair(userId, percentage)];
    }
  }

  /** Accepts exactly the documents of the schema and then returns what they say. */
  method ParsePlan(ms: seq<(string, Json)>) returns (valid: bool, sessionId: string, plan: Plan)
    ensures valid <==> PlanSchema(ms)
    ensures Documented(ms) ==> valid
    ensures valid ==> sessionId == StringOf(ms, "id") && plan == PlanOf(ms)
  {
    var id, defaults;
    valid := true;
    sessionId, valid := ParseString(ms, "id", valid);
    id, valid := ParseString(ms, "feePlanId", valid);
    defaults, valid := ParseConfig(ms, "default", valid);
    ghost var soFar := valid;
    var coins: seq<CoinFee> := [];
    var items := CoinItems(ms);
    for i := 0 to |items|
      invariant |coins| == i
      invariant valid == (soFar && forall k :: 0 <= k < i ==> CoinSchema(items[k]))
      invariant valid ==> forall k :: 0 <= k < i ==> coins[k] == CoinOf(items[k])
    {
      if !items[i].Obj? {
        assert items[i] in items;
        valid := false;
        break;
      }
      var coin, config;
      coin, valid := ParseString(items[i].members, "coin", valid);
      config, valid := ParseConfig(items[i].members, "config", valid);
      coins := coins + [CoinFee(coin, config)];
    }
    plan := Plan(id, defaults, coins);
  }

  // ----- one request, spelled out

  /** Each member of a request goes where it belongs. */
  lemma SpelledRequest(sid: string, p: string, u: string, x: real, c: string, v: string, y: real)
    requires '\0' !in sid && '\0' !in p && '\0' !in u && '\0' !in c && '\0' !in v
    ensures var ms := [
        ("id", Str(sid)),
        ("feePlanId", Str(p)),
        ("default", Arr([Obj([("userId", Str(u)), ("percentage", Number(x))])])),
        ("coinSpecificFee", Arr([
          Obj([("coin", Str(c)), ("config", Arr([Obj([("userId", Str(v)), ("percentage", Number(y))])]))])]))];
      && PlanSchema(ms) && StringOf(ms, "id") == sid
      && PlanOf(ms) == Plan(p, [FeePair(u, x)], [CoinFee(c, [FeePair(v, y)])])
  {
    var plan := Plan(p, [FeePair(u, x)], [CoinFee(c, [FeePair(v, y)])]);
    var ms := WithId(plan, sid, 0);
    PlanRoundTrip(plan, sid, 0);
    CutAtNul(sid, "");
    var def, cfg := ConfigTree([FeePair(u, x)]), ConfigTree([FeePair(v, y)]);
    assert def == Arr([Obj([("userId", Str(u)), ("percentage", Number(x))])]);
    assert cfg == Arr([Obj([("userId", Str(v)), ("percentage", Number(y))])]);
    var coin := CoinTree(plan.coins[0]);
    assert PlanMembers(plan)[2].1 == Arr([coin]);
    assert ms == [("id", Str(sid)), ("feePlanId", Str(p)), ("default", def), ("coinSpecificFee", Arr([coin]))];
    hide PlanSchema, PlanOf, ConfigTree, CoinTree, PlanMembers;
  }

  // ----- the parser and the documentation

  /** Documented requests are accepted. Others are refused, except exactly those that would be documented
      if it were not for a `coinSpecificFee` that is not an array. */
  lemma AgreesIffNotMistyped(ms: seq<(string, Json)>)
    ensures Documented(ms) ==> PlanSchema(ms)
    ensures (PlanSchema(ms) <==> Documented(ms)) <==>
      || Member(ms, "coinSpecificFee").None? || HasArray(ms, "coinSpecificFee")
      || !HasString(ms, "id") || !HasString(ms, "feePlanId") || !ConfigSchema(ms, "default")
  {}

  lemma {:induction false} MemberAppended(ms: seq<(string, Json)>, extra: (string, Json), name: string)
    ensures Member(ms + [extra], name) ==
      if Member(ms, name).None? && name == extra.0 then Some(extra.1) else Member(ms, name)
  {
    if ms == [] {
      assert ms + [extra] == [extra] && [extra][1..] == [];
    } else {
      MemberAppended(ms[1..], extra, name);
      assert (ms + [extra])[1..] == ms[1..] + [extra];
    }
  }

  /** Every acceptable request without a `coinSpecificFee` can be given one of any wrong type: it is still
      accepted, against the documentation, and means the same. */
  lemma MistypedIsIgnored(ms: seq<(string, Json)>, v: Json)
    requires PlanSchema(ms) && Member(ms, "coinSpecificFee").None? && !v.Arr?
    ensures var t := ms + [("coinSpecificFee", v)];
      PlanSchema(t) && !Documented(t) && StringOf(t, "id") == StringOf(ms, "id") && PlanOf(t) == PlanOf(ms)
  {
    forall name ensures Member(ms + [("coinSpecificFee", v)], name) ==
      if name == "coinSpecificFee" then Some(v) else Member(ms, name)
    {
      MemberAppended(ms, ("coinSpecificFee", v), name);
    }
  }

  /** One such request: {"id": "x", "feePlanId": "y", "default": [], "coinSpecificFee": null}. */
  lemma AcceptedButUndocumented()
    ensures var t := [("id", Str("x")), ("feePlanId", Str("y")), ("default", Arr([])), ("coinSpecificFee", Null)];
      PlanSchema(t) && !Documented(t) && PlanOf(t) == Plan("y", [], [])
  {}

  // ----- round trip

  predicate NoNul(s: string) { '\0' !in s }

  predicate NulFreeConfig(config: seq<FeePair>) {
    forall p :: p in config ==> NoNul(p.userId)
  }

  predicate NulFree(p: Plan) {
    && NoNul(p.id) && NulFreeConfig(p.defaults)
    && forall c :: c in p.coins ==> NoNul(c.coin) && NulFreeConfig(c.config)
  }

  /** Strings end at the first NUL. */
  lemma CutAtNul(text: string, tail: string)
    requires '\0' !in text
    ensures Cut(text) == text && Cut(text + "\0" + tail) == text
  {
    IndexIsUnique(text, '\0', |text|);
    var s := text + "\0" + tail;
    assert s[..|text|] == text && text[..|text|] == text;
    IndexIsUnique(s, '\0', |text|);
  }

  lemma CutIff(s: string)
    ensures Cut(s) == s <==> NoNul(s)
  {}

  lemma PairRoundTrip(p: FeePair)
    ensures PairSchema(PairTree(p)) && PairOf(PairTree(p)) == p.(userId := Cut(p.userId))
  {
    var ms := PairTree(p).members;
    assert ms[1..][0] == ("percentage", Number(p.percentage));
    assert Member(ms, "percentage") == Member(ms[1..], "percentage") == Some(Number(p.percentage));
    assert Member(ms, "userId") == Some(Str(p.userId));
  }

  lemma ConfigRoundTrip(config: seq<FeePair>)
    ensures var items := ConfigTree(config).items;
      (forall v :: v in items ==> PairSchema(v)) && (PairsOf(items) == config <==> NulFreeConfig(config))
  {
    var items := ConfigTree(config).items;
    forall i | 0 <= i < |config|
      ensures PairSchema(items[i]) && (PairOf(items[i]) == config[i] <==> NoNul(config[i].userId))
    {
      PairRoundTrip(config[i]);
      CutIff(config[i].userId);
    }
    if PairsOf(items) == config {
      forall p | p in config ensures NoNul(p.userId) {
        var i :| 0 <= i < |config| && config[i] == p;
        assert PairsOf(items)[i] == config[i];
      }
    }
  }

  lemma CoinRoundTrip(c: CoinFee)
    ensures CoinSchema(CoinTree(c))
    ensures CoinOf(CoinTree(c)) == c <==> NoNul(c.coin) && NulFreeConfig(c.config)
  {
    var ms := CoinTree(c).members;
    assert ms[1..][0] == ("config", ConfigTree(c.config));
    assert Member(ms, "config") == Member(ms[1..], "config") == Some(ConfigTree(c.config));
    assert Member(ms, "coin") == Some(Str(c.coin));
    ConfigRoundTrip(c.config);
    CutIff(c.coin);
  }

  /** The written members with a session id put among them, in any place. */
  function WithId(p: Plan, sessionId: string, k: nat): seq<(string, Json)>
    requires k <= 3
  {
    PlanMembers(p)[..k] + [("id", Str(sessionId))] + PlanMembers(p)[k..]
  }

  lemma {:induction false} MemberInserted(ms: seq<(string, Json)>, k: nat, extra: (string, Json), name: string)
    requires k <= |ms| && forall m :: m in ms ==> m.0 != extra.0
    ensures Member(ms[..k] + [extra] + ms[k..], name) == if name == extra.0 then Some(extra.1) else Member(ms, name)
  {
    var t := ms[..k] + [extra] + ms[k..];
    if k == 0 {
      assert t[1..] == ms && t[0] == extra;
      if name == extra.0 { assert Member(t, name) == Some(t[0].1); }
    } else {
      MemberInserted(ms[1..], k - 1, extra, name);
      assert t[1..] == ms[1..][..k - 1] + [extra] + ms[1..][k - 1..];
    }
  }

  /** Reading back what was written always succeeds, and gives the same plan exactly when no string in
      it contains a NUL. */
  lemma PlanRoundTrip(p: Plan, sessionId: string, k: nat)
    requires k <= 3
    ensures var ms := WithId(p, sessionId, k);
      PlanSchema(ms) && StringOf(ms, "id") == Cut(sessionId) && (PlanOf(ms) == p <==> NulFree(p))
  {
    var ms, written := WithId(p, sessionId, k), PlanMembers(p);
    forall name ensures Member(ms, name) == if name == "id" then Some(Str(sessionId)) else Member(written, name) {
      MemberInserted(written, k, ("id", Str(sessionId)), name);
    }
    WrittenMembers(p);
    CutIff(p.id);
    ConfigRoundTrip(p.defaults);
    var items := CoinItems(ms);
    forall i | 0 <= i < |items|
      ensures CoinSchema(items[i])
      ensures CoinOf(items[i]) == p.coins[i] <==> NoNul(p.coins[i].coin) && NulFreeConfig(p.coins[i].config)
    {
      CoinRoundTrip(p.coins[i]);
    }
    assert PlanSchema(ms);
    var q := PlanOf(ms);
    if q == p {
      forall c | c in p.coins ensures NoNul(c.coin) && NulFreeConfig(c.config) {
        var i :| 0 <= i < |p.coins| && p.coins[i] == c;
        assert q.coins[i] == CoinOf(items[i]);
      }
    }
  }

  /** No plan that was accepted contains a NUL: strings were cut before the first one. */
  lemma AcceptedIsNulFree(ms: seq<(string, Json)>)
    requires PlanSchema(ms)
    ensures NulFree(PlanOf(ms))
  {}

  /** Every plan the API accepted is accepted again when written back, and comes back equal. */
  lemma AcceptedComesBack(ms: seq<(string, Json)>, sessionId: string, k: nat)
    requires PlanSchema(ms) && k <= 3
    ensures var back := WithId(PlanOf(ms), sessionId, k); PlanSchema(back) && PlanOf(back) == PlanOf(ms)
  {
    AcceptedIsNulFree(ms);
    PlanRoundTrip(PlanOf(ms), sessionId, k);
  }

  lemma WrittenMembers(p: Plan)
    ensures var ms := PlanMembers(p);
      && Member(ms, "feePlanId") == Some(Str(p.id))
      && Member(ms, "default") == Some(ConfigTree(p.defaults))
      && Member(ms, "coinSpecificFee") == Some(ms[2].1)
  {
    var ms := PlanMembers(p);
    forall name ensures Member(ms, name) == if ms[0].0 == name then Some(ms[0].1) else Member(ms[1..], name) {}
    assert ms[1..] == [ms[1], ms[2]] && ms[1..][1..] == [ms[2]];
    assert Member(ms[1..], "coinSpecificFee") == Member([ms[2]], "coinSpecificFee");
  }
}
