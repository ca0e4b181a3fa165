/**
 The resumable business coordinator as a state machine over the state file, the memory of one
 activation, and the publisher. An activation awaits each of its writes, its processes and its
 sleeps; between two awaits it runs without interruption, so each stretch of code is one event.
 A crash may come between any two events and leaves only the state file.
 */
module Coordinator {
  import opened Common
  import opened StageResult
  import opened CoordinatorPlan

  // ---------- State ----------

  datatype StageStatus = StageRunning | StageComplete | StageFailed | StageRetrying | StageWaitingResource | StageWaiting

  datatype RunStatus = RunRunning | ReadyToPublish | Published | WaitingResource | WaitingPlatform | RunFailed

  datatype Entry = Entry(status: StageStatus, attempts: nat, pendingStores: seq<string>, needsRecovery: bool)

  type Stages = map<string, Entry>

  /** The content of the state file. */
  datatype Saved = Saved(status: RunStatus, stages: Stages)

  /** Where the code of one stage stands; a ticket numbers the write it awaits. */
  datatype Pc =
    | Idle
    | Deciding
    | SavingAttempt(ticket: nat)
    | Running
    | SavingResult(ticket: nat, pause: Option<nat>)
    | Sleeping(wake: nat)
    | Finished
    | Dead

  /** `queue` holds the snapshots handed to the writer and not yet written, `checks` the attempts begun. */
  datatype Memory = Memory(state: Saved, queue: seq<Saved>, flushed: nat, pcs: seq<Pc>, checks: seq<nat>, start: nat,
                           closing: Option<nat>)

  /** A process launch, with the stages as stored on disk at that moment. */
  datatype Launch = Launch(index: nat, attempt: nat, stores: seq<string>, activation: nat, stored: Stages)

  datatype Config = Config(disk: Option<Saved>, memory: Option<Memory>, publisher: Option<Saved>, clock: nat,
                           activations: nat, launches: seq<Launch>)

  datatype Settings = Settings(budget: nat, retryDelay: Option<nat>)

  function Initially(clock: nat): Config {
    Config(None, None, None, clock, 0, [])
  }

  function Stored(disk: Option<Saved>): Stages {
    if disk.Some? then disk.value.stages else map[]
  }

  predicate Done(stages: Stages, name: string) {
    name in stages && stages[name].status == StageComplete
  }

  predicate AllComplete(plan: Plan, stages: Stages) {
    forall i | 0 <= i < |plan.stages| :: Done(stages, plan.stages[i].name)
  }

  function Attempts(stages: Stages, name: string): nat {
    if name in stages then stages[name].attempts else 0
  }

  function Pending(stages: Stages, name: string): seq<string> {
    if name in stages then stages[name].pendingStores else []
  }

  /** The pause before the next attempt, in milliseconds. */
  function Pause(plan: Plan, settings: Settings, stage: Stage, deferred: bool): nat {
    if settings.retryDelay.Some? then settings.retryDelay.value
    else if deferred then 15000
    else if plan.task == DailyOperations && stage.name == "home-history" then 300000
    else if plan.task == SupplyDaily then 30000
    else 20000
  }

  function MinPause(settings: Settings): nat {
    if settings.retryDelay.Some? then settings.retryDelay.value else 15000
  }

  // ---------- Events ----------

  datatype Event =
    | Activate
    | Flush
    | Enter(i: nat)
    | Check(i: nat)
    | Start(i: nat)
    | Exit(i: nat, exitCode: int, summary: Summary)
    | Throw(i: nat)
    | Settle(i: nat)
    | Wake(i: nat)
    | Close
    | Return
    | Crash
    | PublishRead
    | PublishWrite
    | Tick(passed: nat)

  /** persistState: a snapshot joins the queue; the caller awaits its ticket. */
  function Persist(m: Memory, state: Saved): Memory {
    m.(state := state, queue := m.queue + [state])
  }

  function Ticket(m: Memory): nat {
    m.flushed + |m.queue|
  }

  /** Stores a new entry for one stage and hands the state to the writer. */
  function Record(plan: Plan, m: Memory, i: nat, status: RunStatus, entry: Entry): Memory
    requires i < |plan.stages|
  {
    Persist(m, Saved(status, m.state.stages[plan.stages[i].name := entry]))
  }

  function At(m: Memory, i: nat, pc: Pc): Memory
    requires i < |m.pcs|
  {
    m.(pcs := m.pcs[i := pc])
  }

  predicate Started(plan: Plan, m: Memory, i: nat) {
    i < |plan.stages| && |m.pcs| == |plan.stages| == |m.checks| && m.closing.None? && 1 <= m.flushed
  }

  /** Every stage before `i` has returned COMPLETE. */
  predicate ReturnedUpTo(plan: Plan, m: Memory, i: nat)
    requires |m.pcs| == |plan.stages| && i <= |plan.stages|
  {
    forall j | 0 <= j < i :: m.pcs[j] == Finished && Done(m.state.stages, plan.stages[j].name)
  }

  /** A sequential plan enters a stage after all earlier ones returned COMPLETE. */
  predicate MayEnter(plan: Plan, m: Memory, i: nat)
    requires Started(plan, m, i)
  {
    plan.parallel || ReturnedUpTo(plan, m, i)
  }

  function EnterStage(plan: Plan, m: Memory, i: nat): Memory
    requires Started(plan, m, i)
  {
    var stage := plan.stages[i];
    var stages := m.state.stages;
    if Done(stages, stage.name) then At(m, i, Finished)
    else if stage.onlyAfterPartial.Some?
            && !(stage.onlyAfterPartial.value in stages && stages[stage.onlyAfterPartial.value].needsRecovery) then
      var m' := Record(plan, m, i, m.state.status, Entry(StageComplete, 0, [], false));
      At(m', i, SavingResult(Ticket(m'), None))
    else At(m, i, Deciding)
  }

  function CheckBudget(plan: Plan, settings: Settings, m: Memory, i: nat, clock: nat): Memory
    requires Started(plan, m, i)
  {
    var name := plan.stages[i].name;
    var stages := m.state.stages;
    if clock < m.start + settings.budget then
      var m' := Record(plan, m, i, m.state.status,
                       Entry(StageRunning, Attempts(stages, name) + 1, Pending(stages, name), false));
      At(m', i, SavingAttempt(Ticket(m'))).(checks := m.checks[i := m.checks[i] + 1])
    else
      var m' := Record(plan, m, i, WaitingPlatform,
                       Entry(StageWaiting, Attempts(stages, name), Pending(stages, name), false));
      At(m', i, SavingResult(Ticket(m'), None))
  }

  /** The code after a process has exited, up to the next await. */
  function ReadResult(plan: Plan, settings: Settings, m: Memory, i: nat, exitCode: int, summary: Summary): Memory
    requires Started(plan, m, i)
  {
    var stage := plan.stages[i];
    var attempts := Attempts(m.state.stages, stage.name);
    var result := Classify(stage.kind, exitCode, summary);
    if result.complete then
      var m' := Record(plan, m, i, m.state.status, Entry(StageComplete, attempts, [], result.needsRecovery));
      At(m', i, SavingResult(Ticket(m'), None))
    else if result.fatal then
      var m' := Record(plan, m, i, RunFailed, Entry(StageFailed, attempts, [], false));
      At(m', i, SavingResult(Ticket(m'), None))
    else
      var pending := if result.retryStores != [] then result.retryStores else Pending(m.state.stages, stage.name);
      var m' := Record(plan, m, i, if result.deferred then WaitingResource else WaitingPlatform,
                       Entry(if result.deferred then StageWaitingResource else StageRetrying, attempts, pending, false));
      At(m', i, SavingResult(Ticket(m'), Some(Pause(plan, settings, stage, result.deferred))))
  }

  /** The stage loop of a sequential plan is over: it ran through, or stopped at stage `i`. */
  predicate StoppedAt(plan: Plan, m: Memory, i: nat)
    requires |m.pcs| == |plan.stages| && i <= |plan.stages|
  {
    ReturnedUpTo(plan, m, i)
    && (i < |plan.stages| ==> m.pcs[i] == Finished && !Done(m.state.stages, plan.stages[i].name))
  }

  /** All stages have returned, or a sequential plan stopped at one that is not COMPLETE. */
  predicate AllReturned(plan: Plan, m: Memory)
    requires |m.pcs| == |plan.stages|
  {
    if plan.parallel then forall i | 0 <= i < |plan.stages| :: m.pcs[i] == Finished
    else exists i :: 0 <= i <= |plan.stages| && StoppedAt(plan, m, i)
  }

  function CloseRun(plan: Plan, m: Memory): Memory {
    var status := if AllComplete(plan, m.state.stages) then ReadyToPublish
                  else if m.state.status == RunRunning then WaitingPlatform
                  else m.state.status;
    var m' := Persist(m, Saved(status, m.state.stages));
    m'.(closing := Some(Ticket(m')))
  }

  function ActivateRun(plan: Plan, c: Config): Config {
    if c.disk.Some? && c.disk.value.status == Published && AllComplete(plan, c.disk.value.stages) then c
    else
      var state := Saved(RunRunning, Stored(c.disk));
      c.(activations := c.activations + 1,
         memory := Some(Memory(state, [state], 0, seq(|plan.stages|, i => Idle), seq(|plan.stages|, i => 0), c.clock, None)))
  }

  /** The effect of a stage's own event on memory; None when the stage does not stand there. */
  function StageEvent(plan: Plan, settings: Settings, m: Memory, clock: nat, e: Event): Option<Memory> {
    match e
    case Enter(i) =>
      if Started(plan, m, i) && m.pcs[i] == Idle && MayEnter(plan, m, i) then Some(EnterStage(plan, m, i)) else None
    case Check(i) =>
      if Started(plan, m, i) && m.pcs[i] == Deciding then Some(CheckBudget(plan, settings, m, i, clock)) else None
    case Start(i) =>
      if Started(plan, m, i) && m.pcs[i].SavingAttempt? && m.pcs[i].ticket <= m.flushed then
        var stage := plan.stages[i];
        var args := StageArgs(stage, Pending(m.state.stages, stage.name), Attempts(m.state.stages, stage.name));
        Some(At(m, i, if args.Success? then Running else Dead))
      else None
    case Exit(i, exitCode, summary) =>
      if Started(plan, m, i) && m.pcs[i] == Running then Some(ReadResult(plan, settings, m, i, exitCode, summary)) else None
    case Throw(i) =>
      if Started(plan, m, i) && m.pcs[i] == Running then Some(At(m, i, Dead)) else None
    case Settle(i) =>
      if Started(plan, m, i) && m.pcs[i].SavingResult? && m.pcs[i].ticket <= m.flushed then
        Some(At(m, i, if m.pcs[i].pause.Some? then Sleeping(clock + m.pcs[i].pause.value) else Finished))
      else None
    case Wake(i) =>
      if Started(plan, m, i) && m.pcs[i].Sleeping? && m.pcs[i].wake <= clock then
        Some(At(m, i, Deciding).(state := m.state.(status := RunRunning)))
      else None
    case _ => None
  }

  /** The launch a stage's event performs, if it is one. */
  function Launched(plan: Plan, c: Config, m: Memory, m': Memory, e: Event): seq<Launch> {
    if e.Start? && e.i < |m'.pcs| && m'.pcs[e.i] == Running && e.i < |plan.stages| then
      var name := plan.stages[e.i].name;
      [Launch(e.i, Attempts(m.state.stages, name), Pending(m.state.stages, name), c.activations, Stored(c.disk))]
    else []
  }

  function Next(plan: Plan, settings: Settings, c: Config, e: Event): Option<Config> {
    match e
    case Activate => if c.memory.None? then Some(ActivateRun(plan, c)) else None
    case Flush =>
      if c.memory.Some? && c.memory.value.queue != [] then
        var m := c.memory.value;
        Some(c.(disk := Some(m.queue[0]), memory := Some(m.(queue := m.queue[1..], flushed := m.flushed + 1))))
      else None
    case Close =>
      if c.memory.Some? && |c.memory.value.pcs| == |plan.stages| && c.memory.value.closing.None?
         && 1 <= c.memory.value.flushed && AllReturned(plan, c.memory.value) then
        Some(c.(memory := Some(CloseRun(plan, c.memory.value))))
      else None
    case Return =>
      if c.memory.Some? && c.memory.value.closing.Some? && c.memory.value.closing.value <= c.memory.value.flushed then
        Some(c.(memory := None))
      else None
    case Crash => Some(c.(memory := None))
    case PublishRead =>
      if c.disk.Some? && c.disk.value.status == ReadyToPublish then Some(c.(publisher := c.disk)) else None
    case PublishWrite =>
      if c.publisher.Some? then Some(c.(disk := Some(c.publisher.value.(status := Published)), publisher := None)) else None
    case Tick(passed) => Some(c.(clock := c.clock + passed))
    case _ =>
      if c.memory.None? then None
      else
        var m := c.memory.value;
        var m' := StageEvent(plan, settings, m, c.clock, e);
        if m'.None? then None
        else Some(c.(memory := m', launches := c.launches + Launched(plan, c, m, m'.value, e)))
  }

  /** A whole run, over any number of activations and crashes. */
  function Run(plan: Plan, settings: Settings, c: Config, events: seq<Event>): Option<Config> {
    if events == [] then Some(c)
    else
      var before := Run(plan, settings, c, events[..|events| - 1]);
      if before.None? then None else Next(plan, settings, before.value, events[|events| - 1])
  }

  // ---------- What every stored state satisfies ----------

  /** A sequential plan has completed every earlier stage. */
  ghost predicate EarlierDone(plan: Plan, stages: Stages, i: nat)
    requires i <= |plan.stages|
  {
    !plan.parallel ==> forall j | 0 <= j < i :: Done(stages, plan.stages[j].name)
  }

  /** A conditional stage was asked for by the stage it depends on. */
  ghost predicate Asked(plan: Plan, stages: Stages, i: nat)
    requires i < |plan.stages|
  {
    var on := plan.stages[i].onlyAfterPartial;
    on.Some? ==> Done(stages, on.value) && stages[on.value].needsRecovery
  }

  ghost predicate StagesOk(plan: Plan, stages: Stages) {
    && (forall name | name in stages :: exists i :: 0 <= i < |plan.stages| && plan.stages[i].name == name)
    && (forall name | name in stages && stages[name].needsRecovery :: Done(stages, name))
    && (forall i | 0 <= i < |plan.stages| && plan.stages[i].name in stages ::
          && EarlierDone(plan, stages, i)
          && (!Done(stages, plan.stages[i].name) ==> Asked(plan, stages, i)))
  }

  ghost predicate SavedOk(plan: Plan, v: Saved) {
    StagesOk(plan, v.stages)
    && (v.status == ReadyToPublish || v.status == Published ==> AllComplete(plan, v.stages))
  }

  /** `b` continues `a`: attempt numbers do not fall and completed stages stay as they are. */
  ghost predicate Continues(a: Stages, b: Stages) {
    forall name | name in a ::
      name in b && a[name].attempts <= b[name].attempts
      && (a[name].status == StageComplete ==> b[name] == a[name])
  }

  lemma ContinuesIsTransitive(a: Stages, b: Stages, c: Stages)
    requires Continues(a, b) && Continues(b, c)
    ensures Continues(a, c)
  {
  }

  /** A continuation of a completed plan is that plan's final state. */
  lemma CompletedIsFinal(plan: Plan, a: Stages, b: Stages)
    requires StagesOk(plan, b) && AllComplete(plan, a) && Continues(a, b)
    ensures a == b
  {
    hide EarlierDone, Asked;
    forall name ensures name in a <==> name in b {
      if name in b {
        var i :| 0 <= i < |plan.stages| && plan.stages[i].name == name;
        assert Done(a, plan.stages[i].name);
      }
    }
    forall name | name in a ensures a[name] == b[name] {
      var i :| 0 <= i < |plan.stages| && plan.stages[i].name == name;
      assert Done(a, plan.stages[i].name);
    }
  }

  lemma GatesContinue(plan: Plan, a: Stages, b: Stages, i: nat)
    requires i < |plan.stages| && Continues(a, b)
    ensures EarlierDone(plan, a, i) ==> EarlierDone(plan, b, i)
    ensures Asked(plan, a, i) ==> Asked(plan, b, i)
  {
    if EarlierDone(plan, a, i) && !plan.parallel {
      forall j | 0 <= j < i ensures Done(b, plan.stages[j].name) {
        assert Done(a, plan.stages[j].name);
      }
    }
  }
}
