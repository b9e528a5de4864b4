/** The API's functions: the table that names them, and the dispatcher's cases. */
module FunctionTable {
  import opened Wrappers

  datatype HttpMethod = Post | OtherMethod(code: int)

  datatype Function =
    | Unknown
    | Api
    | UserAction
    | UserCreate
    | UserResendEmail
    | UserLogin
    | UserLogout
    | UserQueryMonitoringSession
    | UserChangeEmail
    | UserChangePasswordInitiate
    | UserChangePasswordForce
    | UserGetCredentials
    | UserGetSettings
    | UserUpdateCredentials
    | UserUpdateSettings
    | UserEnumerateAll
    | UserGetFeePlan
    | UserEnumerateFeePlan
    | UserUpdateFeePlan
    | UserChangeFeePlan
    | UserActivate2faInitiate
    | UserDeactivate2faInitiate
    | BackendManualPayout
    | BackendQueryCoins
    | BackendQueryUserBalance
    | BackendQueryUserStats
    | BackendQueryUserStatsHistory
    | BackendQueryWorkerStatsHistory
    | BackendQueryFoundBlocks
    | BackendQueryPayouts
    | BackendQueryPoolBalance
    | BackendQueryPoolStats
    | BackendQueryPoolStatsHistory
    | BackendQueryProfitSwitchCoeff
    | BackendQueryPPLNSPayouts
    | BackendQueryPPLNSAcc
    | BackendUpdateProfitSwitchCoeff
    | BackendPoolLuck
    | InstanceEnumerateAll
    | ComplexMiningStatsGetInfo

  /** Name, required method, function. */
  const FUNCTIONS: seq<(string, HttpMethod, Function)> := [
    ("userAction", Post, UserAction),
    ("userCreate", Post, UserCreate),
    ("userResendEmail", Post, UserResendEmail),
    ("userLogin", Post, UserLogin),
    ("userLogout", Post, UserLogout),
    ("userQueryMonitoringSession", Post, UserQueryMonitoringSession),
    ("userChangeEmail", Post, UserChangeEmail),
    ("userChangePasswordForce", Post, UserChangePasswordForce),
    ("userChangePasswordInitiate", Post, UserChangePasswordInitiate),
    ("userGetCredentials", Post, UserGetCredentials),
    ("userGetSettings", Post, UserGetSettings),
    ("userUpdateCredentials", Post, UserUpdateCredentials),
    ("userUpdateSettings", Post, UserUpdateSettings),
    ("userEnumerateAll", Post, UserEnumerateAll),
    ("userEnumerateFeePlan", Post, UserEnumerateFeePlan),
    ("userGetFeePlan", Post, UserGetFeePlan),
    ("userUpdateFeePlan", Post, UserUpdateFeePlan),
    ("userChangeFeePlan", Post, UserChangeFeePlan),
    ("userActivate2faInitiate", Post, UserActivate2faInitiate),
    ("userDeactivate2faInitiate", Post, UserDeactivate2faInitiate),
    ("backendManualPayout", Post, BackendManualPayout),
    ("backendQueryCoins", Post, BackendQueryCoins),
    ("backendQueryFoundBlocks", Post, BackendQueryFoundBlocks),
    ("backendQueryPayouts", Post, BackendQueryPayouts),
    ("backendQueryPoolBalance", Post, BackendQueryPoolBalance),
    ("backendQueryPoolStats", Post, BackendQueryPoolStats),
    ("backendQueryPoolStatsHistory", Post, BackendQueryPoolStatsHistory),
    ("backendQueryProfitSwitchCoeff", Post, BackendQueryProfitSwitchCoeff),
    ("backendQueryUserBalance", Post, BackendQueryUserBalance),
    ("backendQueryUserStats", Post, BackendQueryUserStats),
    ("backendQueryUserStatsHistory", Post, BackendQueryUserStatsHistory),
    ("backendQueryWorkerStatsHistory", Post, BackendQueryWorkerStatsHistory),
    ("backendQueryPPLNSPayouts", Post, BackendQueryPPLNSPayouts),
    ("backendQueryPPLNSAcc", Post, BackendQueryPPLNSAcc),
    ("backendUpdateProfitSwitchCoeff", Post, BackendUpdateProfitSwitchCoeff),
    ("backendPoolLuck", Post, BackendPoolLuck),
    ("instanceEnumerateAll", Post, InstanceEnumerateAll),
    ("complexMiningStatsGetInfo", Post, ComplexMiningStatsGetInfo)
  ]

  /** The functions the dispatcher has a case for. */
  const HANDLED: set<Function> := {
    UserAction,
    UserCreate,
    UserResendEmail,
    UserLogin,
    UserLogout,
    UserQueryMonitoringSession,
    UserChangeEmail,
    UserChangePasswordInitiate,
    UserChangePasswordForce,
    UserGetCredentials,
    UserGetSettings,
    UserUpdateCredentials,
    UserUpdateSettings,
    UserEnumerateAll,
    UserEnumerateFeePlan,
    UserGetFeePlan,
    UserUpdateFeePlan,
    UserChangeFeePlan,
    UserActivate2faInitiate,
    UserDeactivate2faInitiate,
    BackendManualPayout,
    BackendQueryUserBalance,
    BackendQueryUserStats,
    BackendQueryUserStatsHistory,
    BackendQueryWorkerStatsHistory,
    BackendQueryCoins,
    BackendQueryFoundBlocks,
    BackendQueryPayouts,
    BackendQueryPoolBalance,
    BackendQueryPoolStats,
    BackendQueryPoolStatsHistory,
    BackendQueryProfitSwitchCoeff,
    BackendQueryPPLNSPayouts,
    BackendQueryPPLNSAcc,
    BackendUpdateProfitSwitchCoeff,
    BackendPoolLuck,
    InstanceEnumerateAll,
    ComplexMiningStatsGetInfo
  }

  function FunctionNamedFrom(name: string, i: nat): (r: Option<(HttpMethod, Function)>)
    requires i <= |FUNCTIONS|
    ensures r.Some? ==> exists k :: i <= k < |FUNCTIONS| && FUNCTIONS[k] == (name, r.value.0, r.value.1)
    ensures r.None? ==> forall k :: i <= k < |FUNCTIONS| ==> FUNCTIONS[k].0 != name
    decreases |FUNCTIONS| - i
  {
    if i == |FUNCTIONS| then None
    else if FUNCTIONS[i].0 == name then Some((FUNCTIONS[i].1, FUNCTIONS[i].2))
    else FunctionNamedFrom(name, i + 1)
  }

  function FunctionNamed(name: string): Option<(HttpMethod, Function)> {
    FunctionNamedFrom(name, 0)
  }

  /** The dispatcher's default is for requests that have not named a function. */
  lemma AllButUnnamedAreHandled(f: Function)
    ensures f in HANDLED <==> f != Unknown && f != Api
  {}

  lemma EntriesNameFunctions()
    ensures forall i :: 0 <= i < |FUNCTIONS| ==> FUNCTIONS[i].2 != Unknown && FUNCTIONS[i].2 != Api
  {}

  /** Every function the table names has a case. */
  lemma NamedFunctionIsHandled(name: string)
    requires FunctionNamed(name).Some?
    ensures FunctionNamed(name).value.1 in HANDLED
  {
    EntriesNameFunctions();
    AllButUnnamedAreHandled(FunctionNamed(name).value.1);
    hide *;
  }

  // ----- the names, from the functions' side

  /** What a client calls each function. The two that stand for no request so far have no name. */
  function ApiName(f: Function): string {
    match f
    case UserAction => "userAction"
    case UserCreate => "userCreate"
    case UserResendEmail => "userResendEmail"
    case UserLogin => "userLogin"
    case UserLogout => "userLogout"
    case UserQueryMonitoringSession => "userQueryMonitoringSession"
    case UserChangeEmail => "userChangeEmail"
    case UserChangePasswordInitiate => "userChangePasswordInitiate"
    case UserChangePasswordForce => "userChangePasswordForce"
    case UserGetCredentials => "userGetCredentials"
    case UserGetSettings => "userGetSettings"
    case UserUpdateCredentials => "userUpdateCredentials"
    case UserUpdateSettings => "userUpdateSettings"
    case UserEnumerateAll => "userEnumerateAll"
    case UserGetFeePlan => "userGetFeePlan"
    case UserEnumerateFeePlan => "userEnumerateFeePlan"
    case UserUpdateFeePlan => "userUpdateFeePlan"
    case UserChangeFeePlan => "userChangeFeePlan"
    case UserActivate2faInitiate => "userActivate2faInitiate"
    case UserDeactivate2faInitiate => "userDeactivate2faInitiate"
    case BackendManualPayout => "backendManualPayout"
    case BackendQueryCoins => "backendQueryCoins"
    case BackendQueryUserBalance => "backendQueryUserBalance"
    case BackendQueryUserStats => "backendQueryUserStats"
    case BackendQueryUserStatsHistory => "backendQueryUserStatsHistory"
    case BackendQueryWorkerStatsHistory => "backendQueryWorkerStatsHistory"
    case BackendQueryFoundBlocks => "backendQueryFoundBlocks"
    case BackendQueryPayouts => "backendQueryPayouts"
    case BackendQueryPoolBalance => "backendQueryPoolBalance"
    case BackendQueryPoolStats => "backendQueryPoolStats"
    case BackendQueryPoolStatsHistory => "backendQueryPoolStatsHistory"
    case BackendQueryProfitSwitchCoeff => "backendQueryProfitSwitchCoeff"
    case BackendQueryPPLNSPayouts => "backendQueryPPLNSPayouts"
    case BackendQueryPPLNSAcc => "backendQueryPPLNSAcc"
    case BackendUpdateProfitSwitchCoeff => "backendUpdateProfitSwitchCoeff"
    case BackendPoolLuck => "backendPoolLuck"
    case InstanceEnumerateAll => "instanceEnumerateAll"
    case ComplexMiningStatsGetInfo => "complexMiningStatsGetInfo"
    case _ => ""
  }

  /** Where each function's entry is. */
  function Position(f: Function): nat {
    match f
    case UserAction => 0
    case UserCreate => 1
    case UserResendEmail => 2
    case UserLogin => 3
    case UserLogout => 4
    case UserQueryMonitoringSession => 5
    case UserChangeEmail => 6
    case UserChangePasswordForce => 7
    case UserChangePasswordInitiate => 8
    case UserGetCredentials => 9
    case UserGetSettings => 10
    case UserUpdateCredentials => 11
    case UserUpdateSettings => 12
    case UserEnumerateAll => 13
    case UserEnumerateFeePlan => 14
    case UserGetFeePlan => 15
    case UserUpdateFeePlan => 16
    case UserChangeFeePlan => 17
    case UserActivate2faInitiate => 18
    case UserDeactivate2faInitiate => 19
    case BackendManualPayout => 20
    case BackendQueryCoins => 21
    case BackendQueryFoundBlocks => 22
    case BackendQueryPayouts => 23
    case BackendQueryPoolBalance => 24
    case BackendQueryPoolStats => 25
    case BackendQueryPoolStatsHistory => 26
    case BackendQueryProfitSwitchCoeff => 27
    case BackendQueryUserBalance => 28
    case BackendQueryUserStats => 29
    case BackendQueryUserStatsHistory => 30
    case BackendQueryWorkerStatsHistory => 31
    case BackendQueryPPLNSPayouts => 32
    case BackendQueryPPLNSAcc => 33
    case BackendUpdateProfitSwitchCoeff => 34
    case BackendPoolLuck => 35
    case InstanceEnumerateAll => 36
    case ComplexMiningStatsGetInfo => 37
    case _ => 38
  }

  /** The same from the name: its length and one character of it tell it from the others. */
  function PositionOf(s: string): nat {
    if |s| == 9 then 3
    else if |s| == 10 then if s[4] == 'A' then 0 else if s[4] == 'C' then 1 else 4
    else if |s| == 14 then 15
    else if |s| == 15 then if s[4] == 'R' then 2 else if s[4] == 'C' then 6 else if s[4] == 'G' then 10 else 35
    else if |s| == 16 then 13
    else if |s| == 17 then if s[4] == 'U' then 16 else if s[4] == 'C' then 17 else 21
    else if |s| == 18 then if s[4] == 'G' then 9 else 12
    else if |s| == 19 then if s[7] == 'M' then 20 else 23
    else if |s| == 20 then if s[0] == 'u' then 14 else if s[0] == 'b' then 33 else 36
    else if |s| == 21 then if s[12] == 'e' then 11 else if s[12] == 'P' then 25 else 29
    else if |s| == 23 then
      if s[12] == 's' then 7 else if s[12] == '2' then 18
      else if s[12] == 'F' then 22 else if s[12] == 'P' then 24 else 28
    else if |s| == 24 then 32
    else if |s| == 25 then if s[0] == 'u' then 19 else 37
    else if |s| == 26 then if s[4] == 'Q' then 5 else 8
    else if |s| == 28 then if s[12] == 'P' then 26 else 30
    else if |s| == 29 then 27
    else if |s| == 30 then if s[7] == 'Q' then 31 else 34
    else 38
  }

  // in fifths, which keeps each proof small

  lemma FirstEntries(f: Function)
    requires Position(f) < 8
    ensures FUNCTIONS[Position(f)] == (ApiName(f), Post, f)
  {}

  lemma SecondEntries(f: Function)
    requires 8 <= Position(f) < 16
    ensures FUNCTIONS[Position(f)] == (ApiName(f), Post, f)
  {}

  lemma ThirdEntries(f: Function)
    requires 16 <= Position(f) < 24
    ensures FUNCTIONS[Position(f)] == (ApiName(f), Post, f)
  {}

  lemma FourthEntries(f: Function)
    requires 24 <= Position(f) < 32
    ensures FUNCTIONS[Position(f)] == (ApiName(f), Post, f)
  {}

  lemma LastEntries(f: Function)
    requires 32 <= Position(f) < 38
    ensures FUNCTIONS[Position(f)] == (ApiName(f), Post, f)
  {}

  lemma FirstNames(f: Function)
    requires Position(f) < 8
    ensures PositionOf(ApiName(f)) == Position(f)
  {}

  lemma SecondNames(f: Function)
    requires 8 <= Position(f) < 16
    ensures PositionOf(ApiName(f)) == Position(f)
  {}

  lemma ThirdNames(f: Function)
    requires 16 <= Position(f) < 24
    ensures PositionOf(ApiName(f)) == Position(f)
  {}

  lemma FourthNames(f: Function)
    requires 24 <= Position(f) < 32
    ensures PositionOf(ApiName(f)) == Position(f)
  {}

  lemma LastNames(f: Function)
    requires 32 <= Position(f) < 38
    ensures PositionOf(ApiName(f)) == Position(f)
  {}

  lemma EntryAt(f: Function)
    requires f != Unknown && f != Api
    ensures Position(f) < |FUNCTIONS| && FUNCTIONS[Position(f)] == (ApiName(f), Post, f)
    ensures PositionOf(ApiName(f)) == Position(f)
  {
    if Position(f) < 8 {
      FirstEntries(f);
      FirstNames(f);
    } else if Position(f) < 16 {
      SecondEntries(f);
      SecondNames(f);
    } else if Position(f) < 24 {
      ThirdEntries(f);
      ThirdNames(f);
    } else if Position(f) < 32 {
      FourthEntries(f);
      FourthNames(f);
    } else {
      LastEntries(f);
      LastNames(f);
    }
    hide ApiName, PositionOf;
  }

  lemma FirstPositions(k: nat)
    requires k < 8
    ensures Position(FUNCTIONS[k].2) == k
  {}

  lemma SecondPositions(k: nat)
    requires 8 <= k < 16
    ensures Position(FUNCTIONS[k].2) == k
  {}

  lemma ThirdPositions(k: nat)
    requires 16 <= k < 24
    ensures Position(FUNCTIONS[k].2) == k
  {}

  lemma FourthPositions(k: nat)
    requires 24 <= k < 32
    ensures Position(FUNCTIONS[k].2) == k
  {}

  lemma LastPositions(k: nat)
    requires 32 <= k < 38
    ensures Position(FUNCTIONS[k].2) == k
  {}

  lemma PositionOfEntry(k: nat)
    requires k < |FUNCTIONS|
    ensures Position(FUNCTIONS[k].2) == k
  {
    if k < 8 {
      FirstPositions(k);
    } else if k < 16 {
      SecondPositions(k);
    } else if k < 24 {
      ThirdPositions(k);
    } else if k < 32 {
      FourthPositions(k);
    } else {
      LastPositions(k);
    }
    hide Position;
  }

  /** A name stands for a function exactly if it is what clients call it; all are called with POST. */
  lemma NamedIff(name: string, m: HttpMethod, f: Function)
    ensures FunctionNamed(name) == Some((m, f)) <==> m == Post && f != Unknown && f != Api && name == ApiName(f)
  {
    var r := FunctionNamed(name);
    EntriesNameFunctions();
    if r.Some? {
      var k :| 0 <= k < |FUNCTIONS| && FUNCTIONS[k] == (name, r.value.0, r.value.1);
      PositionOfEntry(k);
      EntryAt(r.value.1);
    }
    if f != Unknown && f != Api {
      EntryAt(f);
    }
    hide ApiName, Position, PositionOf;
  }
}
