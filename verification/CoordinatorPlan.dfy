/** The business coordinator's plans, and the arguments each attempt of a stage is launched with. */
module CoordinatorPlan {
  import opened Common
  import opened Framing
  import opened StageResult

  datatype Task = RealtimeCockpit | DailyOperations | SupplyDaily | FinanceDaily | SessionMaintenance

  datatype StoreArg = NoStoreArg | Equals | Separate

  datatype Stage = Stage(name: string, kind: Kind, args: seq<string>, storeArg: StoreArg, attemptScopedRunId: bool,
                         onlyAfterPartial: Option<string>)

  datatype Plan = Plan(task: Task, runId: string, parallel: bool, stages: seq<Stage>)

  /** The dates a plan's arguments mention, and the list of all stores. */
  datatype Today = Today(today: string, yesterday: string, twoDaysAgo: string, eightDaysAgo: string, stores: string)

  /** buildCoordinatorPlan. */
  function BuildPlan(task: Task, runId: string, d: Today): Plan {
    match task
    case RealtimeCockpit =>
      Plan(task, runId, true,
           [ Stage("home-realtime", HomeStage,
                   ["--stores=" + d.stores, "--from=" + d.today, "--to=" + d.today, "--retry-cdp=0", "--execute"],
                   Equals, false, None),
             Stage("sales-realtime", SalesStage, ["--all", "--concurrency", "2", "--run-id", runId],
                   Separate, true, None)])
    case DailyOperations =>
      Plan(task, runId, false,
           [ Stage("home-history", HomeStage,
                   ["--stores=" + d.stores, "--from=" + d.twoDaysAgo, "--to=" + d.yesterday, "--refresh-recent-days=2",
                    "--require-settled-through=" + d.yesterday, "--retry-cdp=0", "--execute"],
                   Equals, false, None),
             Stage("home-ledger", LedgerStage,
                   ["--stores=" + d.stores, "--from=" + d.twoDaysAgo, "--to=" + d.yesterday, "--retry-cdp=0", "--execute"],
                   Equals, false, None)])
    case SupplyDaily =>
      Plan(task, runId, false,
           [Stage("supply", SupplyStage, ["--run-id", runId, "--concurrency", "2"], Separate, true, None)])
    case FinanceDaily =>
      Plan(task, runId, false,
           [Stage("finance", FinanceStage,
                  ["--stores=" + d.stores, "--from=" + d.eightDaysAgo, "--to=" + d.twoDaysAgo, "--concurrency=2",
                   "--execute"],
                  Equals, false, None)])
    case SessionMaintenance =>
      Plan(task, runId, false,
           [ Stage("session-renewal", Renewal, [], NoStoreArg, false, None),
             Stage("session-recovery", Recovery, [], NoStoreArg, false, Some("session-renewal")),
             Stage("session-final-renewal", Renewal, [], NoStoreArg, false, None),
             Stage("session-final-recovery", Recovery, [], NoStoreArg, false, Some("session-final-renewal")),
             Stage("session-final-validation", Validation, [], NoStoreArg, false, None)])
  }

  /** Stage names are distinct, and a conditional stage comes after the stage it depends on. */
  ghost predicate ValidPlan(plan: Plan) {
    && (forall i, j | 0 <= i < j < |plan.stages| :: plan.stages[i].name != plan.stages[j].name)
    && (forall i | 0 <= i < |plan.stages| && plan.stages[i].onlyAfterPartial.Some? ::
          !plan.parallel && exists j | 0 <= j < i :: plan.stages[j].name == plan.stages[i].onlyAfterPartial.value)
  }

  lemma BuiltPlansAreValid(task: Task, runId: string, d: Today)
    ensures ValidPlan(BuildPlan(task, runId, d))
  {
    var stages := BuildPlan(task, runId, d).stages;
    match task
    case RealtimeCockpit =>
      assert stages[0].name[0] != stages[1].name[0];
    case DailyOperations =>
      assert stages[0].name[5] != stages[1].name[5];
    case SessionMaintenance =>
      assert |stages[0].name| == 15 && |stages[1].name| == 16 && |stages[2].name| == 21 && |stages[3].name| == 22
             && |stages[4].name| == 24;
      assert stages[1].onlyAfterPartial == Some(stages[0].name) && stages[3].onlyAfterPartial == Some(stages[2].name);
    case _ =>
  }

  // ---------- Launch arguments ----------

  const RUN_ID := "--run-id"
  const ALL := "--all"
  const STORES := "--stores"
  const STORES_EQUALS := "--stores="

  function IndexOf(args: seq<string>, token: string): (i: nat)
    ensures i <= |args| && (i < |args| ==> args[i] == token) && token !in args[..i]
  {
    if args == [] || args[0] == token then 0 else
    var i := IndexOf(args[1..], token);
    assert args[..i + 1] == [args[0]] + args[1..][..i];
    i + 1
  }

  /** The token after `--run-id`. */
  function RunIdOf(args: seq<string>): Option<string> {
    var i := IndexOf(args, RUN_ID);
    if i + 1 < |args| then Some(args[i + 1]) else None
  }

  function ScopedRunId(runId: string, attempt: nat): string {
    runId + ":attempt-" + Decimal(attempt)
  }

  lemma ScopedRunIdInjective(runId: string, a: nat, b: nat)
    requires ScopedRunId(runId, a) == ScopedRunId(runId, b)
    ensures a == b
  {
    var prefix := runId + ":attempt-";
    assert Decimal(a) == ScopedRunId(runId, a)[|prefix|..] == Decimal(b);
    DecimalReadsBack(a);
    DecimalReadsBack(b);
  }

  predicate HasPrefix(s: string, prefix: string) {
    |prefix| <= |s| && s[..|prefix|] == prefix
  }

  /** The arguments without any selection of stores. */
  function WithoutStores(args: seq<string>): seq<string> {
    if args == [] then []
    else if args[0] == STORES then (if |args| == 1 then [] else WithoutStores(args[2..]))
    else if args[0] == ALL || HasPrefix(args[0], STORES_EQUALS) then WithoutStores(args[1..])
    else [args[0]] + WithoutStores(args[1..])
  }

  function Csv(stores: seq<string>): string {
    if stores == [] then ""
    else if |stores| == 1 then stores[0]
    else stores[0] + "," + Csv(stores[1..])
  }

  /** What is left to keep from `index` on. */
  ghost function KeptFrom(args: seq<string>, index: nat): seq<string> {
    if index <= |args| then WithoutStores(args[index..]) else []
  }

  lemma KeptStep(args: seq<string>, index: nat)
    requires index < |args|
    ensures
      var token := args[index];
      KeptFrom(args, index) ==
      if token == STORES then KeptFrom(args, index + 2)
      else if token == ALL || HasPrefix(token, STORES_EQUALS) then KeptFrom(args, index + 1)
      else [token] + KeptFrom(args, index + 1)
  {
    hide HasPrefix;
    assert args[index..][1..] == args[index + 1..];
    if index + 1 < |args| {
      assert args[index..][2..] == args[index + 2..];
    }
  }

  lemma KeptEnds(args: seq<string>, index: nat)
    requires |args| <= index
    ensures KeptFrom(args, index) == []
  {
  }

  /** The copying loop of stageArgsForStores: the value after `--stores` goes with it. */
  method DropSelections(source: seq<string>) returns (args: seq<string>)
    ensures args == WithoutStores(source)
  {
    hide HasPrefix, KeptFrom, WithoutStores;
    args := [];
    var index := 0;
    KeptAll(source);
    while index < |source|
      invariant 0 <= index
      invariant args + KeptFrom(source, index) == WithoutStores(source)
    {
      var token := source[index];
      KeptStep(source, index);
      if token == STORES {
        index := index + 2;
      } else {
        if token != ALL && !HasPrefix(token, STORES_EQUALS) {
          args := args + [token];
        }
        index := index + 1;
      }
    }
    KeptEnds(source, index);
  }

  lemma KeptAll(args: seq<string>)
    ensures KeptFrom(args, 0) == WithoutStores(args)
  {
    assert args[0..] == args;
  }

  /** stageArgsForStores. */
  method StageArgsForStores(stage: Stage, stores: seq<string>, attempt: nat) returns (r: Result<seq<string>, string>)
    ensures r == StageArgs(stage, stores, attempt)
  {
    var source := stage.args;
    if stage.attemptScopedRunId {
      var i := IndexOf(source, RUN_ID);
      if |source| <= i + 1 || source[i + 1] == "" {
        return Failure("COORDINATOR_STAGE_RUN_ID_REQUIRED");
      }
      source := source[i + 1 := ScopedRunId(source[i + 1], attempt)];
    }
    if stage.storeArg == NoStoreArg || stores == [] {
      return Success(source);
    }
    var args := DropSelections(source);
    return Success(args + Selection(stage.storeArg, stores));
  }

  function Selection(storeArg: StoreArg, stores: seq<string>): seq<string> {
    if storeArg == Separate then [STORES, Csv(stores)] else [STORES_EQUALS + Csv(stores)]
  }

  function StageArgs(stage: Stage, stores: seq<string>, attempt: nat): Result<seq<string>, string> {
    var i := IndexOf(stage.args, RUN_ID);
    if stage.attemptScopedRunId && (|stage.args| <= i + 1 || stage.args[i + 1] == "") then
      Failure("COORDINATOR_STAGE_RUN_ID_REQUIRED")
    else
      var source := if stage.attemptScopedRunId then stage.args[i + 1 := ScopedRunId(stage.args[i + 1], attempt)]
                    else stage.args;
      if stage.storeArg == NoStoreArg || stores == [] then Success(source)
      else Success(WithoutStores(source) + Selection(stage.storeArg, stores))
  }

  /** What the launched process makes of a comma-separated list. */
  function SplitAtCommas(text: string): (parts: seq<string>)
    ensures parts != []
  {
    if text == [] then [""]
    else
      var rest := SplitAtCommas(text[1..]);
      if text[0] == ',' then [""] + rest else [[text[0]] + rest[0]] + rest[1..]
  }

  lemma {:induction false} PlainPartStays(part: string)
    requires ',' !in part
    ensures SplitAtCommas(part) == [part]
  {
    if part != [] {
      PlainPartStays(part[1..]);
      assert part == [part[0]] + part[1..];
    }
  }

  lemma {:induction false} FirstPart(part: string, text: string)
    requires ',' !in part
    ensures SplitAtCommas(part + "," + text) == [part] + SplitAtCommas(text)
  {
    var whole := part + "," + text;
    if part == [] {
      assert whole[1..] == text;
    } else {
      FirstPart(part[1..], text);
      assert whole[1..] == part[1..] + "," + text;
      assert part == [part[0]] + part[1..];
    }
  }

  /** A list of stores without commas reads back as it was written. */
  lemma {:induction false} CsvReadsBack(stores: seq<string>)
    requires stores != [] && forall store | store in stores :: ',' !in store
    ensures SplitAtCommas(Csv(stores)) == stores
  {
    if |stores| == 1 {
      PlainPartStays(stores[0]);
    } else {
      CsvReadsBack(stores[1..]);
      FirstPart(stores[0], Csv(stores[1..]));
      assert stores == [stores[0]] + stores[1..];
    }
  }

  /**
   A launch with pending stores names exactly them, as its last arguments and nowhere else; without
   any, or for a stage that takes no stores, the arguments are the stage's own, run id aside.
   */
  lemma LaunchNamesStores(stage: Stage, stores: seq<string>, attempt: nat) returns (front: seq<string>, list: string)
    requires StageArgs(stage, stores, attempt).Success?
    requires forall store | store in stores :: ',' !in store
    ensures
      var args := StageArgs(stage, stores, attempt).value;
      if stores == [] || stage.storeArg == NoStoreArg then
        |args| == |stage.args| && (!stage.attemptScopedRunId ==> args == stage.args)
      else
        && SplitAtCommas(list) == stores
        && args == front + (if stage.storeArg == Separate then ["--stores", list] else ["--stores=" + list])
        && forall token | token in front :: token != "--all" && token != "--stores" && !("--stores=" <= token)
  {
    front, list := [], "";
    if stores != [] && stage.storeArg != NoStoreArg {
      var i := IndexOf(stage.args, RUN_ID);
      var source := if stage.attemptScopedRunId then stage.args[i + 1 := ScopedRunId(stage.args[i + 1], attempt)]
                    else stage.args;
      front, list := WithoutStores(source), Csv(stores);
      WithoutStoresSelectsNone(source);
      CsvReadsBack(stores);
    }
  }

  /** No other selection of stores survives beside the pending ones. */
  lemma {:induction false} WithoutStoresSelectsNone(args: seq<string>)
    ensures forall token | token in WithoutStores(args) ::
              token in args && token != ALL && token != STORES && !HasPrefix(token, STORES_EQUALS)
  {
    if args != [] {
      if |args| > 1 {
        WithoutStoresSelectsNone(args[2..]);
      }
      WithoutStoresSelectsNone(args[1..]);
    }
  }

  predicate Selector(token: string) {
    token == ALL || token == STORES || HasPrefix(token, STORES_EQUALS)
  }

  /** Beside the selectors no argument is lost or repeated. */
  lemma {:induction false} OtherArgumentsStay(args: seq<string>, token: string)
    requires STORES !in args && !Selector(token)
    ensures multiset(WithoutStores(args))[token] == multiset(args)[token]
  {
    if args != [] {
      assert args == [args[0]] + args[1..];
      assert args[0] in args && forall t | t in args[1..] :: t in args;
      OtherArgumentsStay(args[1..], token);
      assert multiset(args) == multiset{args[0]} + multiset(args[1..]);
    }
  }

  /** Not a store selector, judging by the characters that tell the flags apart. */
  predicate Plain(token: string) {
    token != "" && (token[0] != '-' || (|token| > 2 && token[2] != 'a' && token[2] != 's'))
  }

  lemma PrefixChar(token: string, prefix: string, k: nat)
    requires k < |prefix|
    ensures HasPrefix(token, prefix) ==> k < |token| && token[k] == prefix[k]
  {
  }

  lemma {:induction false} PlainTokensStay(args: seq<string>)
    requires forall token | token in args :: Plain(token)
    ensures WithoutStores(args) == args
  {
    if args != [] {
      var token := args[0];
      assert Plain(token) && ALL[2] == 'a' && STORES[2] == 's' && STORES_EQUALS[2] == 's';
      assert ALL[0] == '-' && STORES[0] == '-' && STORES_EQUALS[0] == '-';
      PrefixChar(token, STORES_EQUALS, 0);
      PrefixChar(token, STORES_EQUALS, 2);
      PlainTokensStay(args[1..]);
    }
  }

  lemma {:induction false} FirstAt(args: seq<string>, token: string, n: nat)
    requires n < |args| && args[n] == token && token !in args[..n]
    ensures IndexOf(args, token) == n
  {
    if n > 0 {
      assert args[..n] == [args[0]] + args[1..][..n - 1];
      FirstAt(args[1..], token, n - 1);
    }
  }

  lemma RunIdFollows(front: seq<string>, runId: string, back: seq<string>)
    requires RUN_ID !in front
    ensures RunIdOf(front + [RUN_ID, runId] + back) == Some(runId)
  {
    FirstAt(front + [RUN_ID, runId] + back, RUN_ID, |front|);
  }

  /** The arguments of the two attempt-scoped stages: perhaps `--all` first, nothing else to drop. */
  lemma DroppingAll(front: seq<string>, rest: seq<string>)
    requires front == [] || front == [ALL]
    requires forall token | token in rest :: Plain(token)
    ensures WithoutStores(front + rest) == rest
  {
    PlainTokensStay(rest);
    if front == [] {
      assert front + rest == rest;
    } else {
      assert (front + rest)[0] == ALL && (front + rest)[1..] == rest;
      assert |ALL| == 5 && |STORES| == 8;
    }
  }

  lemma LaunchArgs(stage: Stage, front: seq<string>, middle: seq<string>, runId: string, back: seq<string>,
                   stores: seq<string>, attempt: nat)
    requires stage.attemptScopedRunId && stage.args == front + middle + [RUN_ID, runId] + back
    requires front == [] || front == [ALL]
    requires forall token | token in middle + back :: Plain(token) && token != RUN_ID
    requires runId != "" && runId[0] != '-'
    ensures StageArgs(stage, stores, attempt).Success?
    ensures RunIdOf(StageArgs(stage, stores, attempt).value) == Some(ScopedRunId(runId, attempt))
  {
    hide Plain, RunIdOf, IndexOf, WithoutStores, Selection;
    var scoped := ScopedRunId(runId, attempt);
    var rest := middle + [RUN_ID, scoped] + back;
    var i := |front + middle|;
    NotTheFlag(front, middle, back);
    assert stage.args[..i] == front + middle;
    FirstAt(stage.args, RUN_ID, i);
    var source := stage.args[i + 1 := scoped];
    assert source == front + middle + [RUN_ID, scoped] + back == front + rest;
    RunIdFollows(front + middle, scoped, back);
    PlainIds(scoped, runId, attempt);
    DroppingAll(front, rest);
    var selection := Selection(stage.storeArg, stores);
    assert rest + selection == middle + [RUN_ID, scoped] + (back + selection);
    RunIdFollows(middle, scoped, back + selection);
  }

  lemma NotTheFlag(front: seq<string>, middle: seq<string>, back: seq<string>)
    requires front == [] || front == [ALL]
    requires forall token | token in middle + back :: token != RUN_ID
    ensures RUN_ID !in middle && RUN_ID !in front + middle
    ensures forall token | token in middle || token in back :: token in middle + back
  {
    assert |RUN_ID| == 8 && |ALL| == 5;
    assert forall token | token in middle :: token in middle + back;
  }

  lemma PlainIds(scoped: string, runId: string, attempt: nat)
    requires runId != "" && runId[0] != '-' && scoped == ScopedRunId(runId, attempt)
    ensures Plain(scoped) && Plain(RUN_ID)
  {
    assert scoped[0] == runId[0] && RUN_ID[2] == 'r';
  }

  /** Every launch of an attempt-scoped stage runs under its own attempt's run id. */
  lemma LaunchCarriesAttempt(task: Task, runId: string, d: Today, stage: Stage, stores: seq<string>, attempt: nat)
    requires stage in BuildPlan(task, runId, d).stages && stage.attemptScopedRunId
    requires runId != "" && runId[0] != '-'
    ensures StageArgs(stage, stores, attempt).Success?
    ensures RunIdOf(StageArgs(stage, stores, attempt).value) == Some(ScopedRunId(runId, attempt))
  {
    hide StageArgs, RunIdOf, ScopedRunId;
    var options := ["--concurrency", "2"];
    assert options[0][2] == 'c' && options[1][0] == '2' && |options[0]| == 13 && |options[1]| == 1 && |RUN_ID| == 8;
    if task == RealtimeCockpit {
      assert stage.args == [ALL] + options + [RUN_ID, runId] + [];
      LaunchArgs(stage, [ALL], options, runId, [], stores, attempt);
    } else {
      assert stage.args == [] + [] + [RUN_ID, runId] + options;
      LaunchArgs(stage, [], [], runId, options, stores, attempt);
    }
  }

  /** The arguments of a stage can be built, whatever the attempt. */
  predicate ArgsBuild(stage: Stage) {
    StageArgs(stage, [], 0).Success?
  }

  lemma ArgsBuildAlways(stage: Stage, stores: seq<string>, attempt: nat)
    ensures StageArgs(stage, stores, attempt).Success? <==> ArgsBuild(stage)
  {
  }

  lemma BuiltStagesBuild(task: Task, runId: string, d: Today, stage: Stage)
    requires stage in BuildPlan(task, runId, d).stages && runId != "" && runId[0] != '-'
    ensures ArgsBuild(stage)
  {
    hide BuildPlan;
    if stage.attemptScopedRunId {
      LaunchCarriesAttempt(task, runId, d, stage, [], 0);
    }
  }
}
