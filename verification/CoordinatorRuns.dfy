/** What holds over every run of coordinator activations, with crashes at any point. */
module CoordinatorRuns {
  import opened Common
  import opened StageResult
  import opened CoordinatorPlan
  import opened Coordinator

  // ---------- The writer's queue ----------

  /** The stages on disk, followed by those of the snapshots still to be written. */
  ghost function History(disk: Option<Saved>, queue: seq<Saved>): (h: seq<Stages>)
    ensures |h| == |queue| + 1 && h[0] == Stored(disk)
  {
    [Stored(disk)] + seq(|queue|, k requires 0 <= k < |queue| => queue[k].stages)
  }

  ghost predicate Monotone(h: seq<Stages>) {
    forall a, b | 0 <= a < b < |h| :: Continues(h[a], h[b])
  }

  /** Every snapshot continues the ones before it, and memory has nothing the last one lacks. */
  ghost predicate QueueOk(plan: Plan, disk: Option<Saved>, queue: seq<Saved>, stages: Stages) {
    && (disk.Some? ==> SavedOk(plan, disk.value))
    && (forall q | q in queue :: SavedOk(plan, q))
    && Monotone(History(disk, queue))
    && stages == History(disk, queue)[|queue|]
    && StagesOk(plan, stages)
  }

  lemma Unchanged(a: Stages)
    ensures Continues(a, a)
  {
  }

  lemma MemoryContinuesDisk(plan: Plan, disk: Option<Saved>, queue: seq<Saved>, stages: Stages)
    requires QueueOk(plan, disk, queue, stages)
    ensures Continues(Stored(disk), stages)
  {
    hide SavedOk, StagesOk, Continues;
    Unchanged(stages);
    assert queue != [] ==> Continues(History(disk, queue)[0], History(disk, queue)[|queue|]);
  }

  lemma QueuePersists(plan: Plan, disk: Option<Saved>, queue: seq<Saved>, stages: Stages, state: Saved)
    requires QueueOk(plan, disk, queue, stages)
    requires SavedOk(plan, state) && StagesOk(plan, state.stages) && Continues(stages, state.stages)
    ensures QueueOk(plan, disk, queue + [state], state.stages)
    ensures History(disk, queue + [state]) == History(disk, queue) + [state.stages]
  {
    hide SavedOk, StagesOk, Continues;
    var h, h' := History(disk, queue), History(disk, queue + [state]);
    assert h' == h + [state.stages];
    forall a, b | 0 <= a < b < |h'| ensures Continues(h'[a], h'[b]) {
      if b == |h| && a < |h| - 1 {
        ContinuesIsTransitive(h[a], h[|h| - 1], state.stages);
      }
    }
  }

  lemma QueueFlushes(plan: Plan, disk: Option<Saved>, queue: seq<Saved>, stages: Stages)
    requires QueueOk(plan, disk, queue, stages) && queue != []
    ensures QueueOk(plan, Some(queue[0]), queue[1..], stages)
    ensures Continues(Stored(disk), queue[0].stages)
    ensures History(Some(queue[0]), queue[1..]) == History(disk, queue)[1..]
  {
    hide SavedOk, StagesOk, Continues;
    var h := History(disk, queue);
    assert Continues(h[0], h[1]);
    assert History(Some(queue[0]), queue[1..]) == h[1..];
  }

  // ---------- The stages' positions ----------

  ghost predicate Active(pc: Pc) {
    pc == Deciding || pc.SavingAttempt? || pc == Running || pc.Sleeping? || (pc.SavingResult? && pc.pause.Some?)
  }

  /** Every snapshot from the ticketed one on carries the stage's current entry. */
  ghost predicate Settled(h: seq<Stages>, flushed: nat, ticket: nat, name: string, entry: Entry) {
    forall k | 0 <= k < |h| && ticket <= flushed + k :: name in h[k] && h[k][name] == entry
  }

  ghost predicate PcOk(plan: Plan, h: seq<Stages>, flushed: nat, pc: Pc, stages: Stages, i: nat)
    requires i < |plan.stages|
  {
    var name := plan.stages[i].name;
    && (Active(pc) ==> !Done(stages, name) && EarlierDone(plan, stages, i) && Asked(plan, stages, i))
    && (pc.SavingAttempt? ==>
          && name in stages && stages[name].status == StageRunning
          && Settled(h, flushed, pc.ticket, name, stages[name]))
  }

  ghost predicate PcsOk(plan: Plan, h: seq<Stages>, flushed: nat, pcs: seq<Pc>, stages: Stages) {
    |pcs| == |plan.stages| && forall i | 0 <= i < |pcs| :: PcOk(plan, h, flushed, pcs[i], stages, i)
  }

  ghost predicate Publishable(status: RunStatus) {
    status == ReadyToPublish || status == Published
  }

  ghost predicate MemoryOk(plan: Plan, disk: Option<Saved>, m: Memory) {
    && QueueOk(plan, disk, m.queue, m.state.stages)
    && PcsOk(plan, History(disk, m.queue), m.flushed, m.pcs, m.state.stages)
    && |m.checks| == |plan.stages|
    && (m.closing.None? ==> !Publishable(m.state.status))
  }

  // ---------- The launches ----------

  /** The launch found its own attempt already on disk, and its gates open there. */
  ghost predicate LaunchOk(plan: Plan, l: Launch, disk: Stages) {
    && l.index < |plan.stages|
    && var name := plan.stages[l.index].name;
    && name in l.stored && l.stored[name].status == StageRunning && l.stored[name].attempts == l.attempt
    && StagesOk(plan, l.stored) && Continues(l.stored, disk)
    && StageArgs(plan.stages[l.index], l.stores, l.attempt).Success?
  }

  ghost predicate LaunchesOk(plan: Plan, launches: seq<Launch>, disk: Stages) {
    && (forall l | l in launches :: LaunchOk(plan, l, disk))
    && (forall a, b | 0 <= a < b < |launches| && launches[a].index == launches[b].index ::
          launches[a].attempt < launches[b].attempt)
  }

  /** The attempt a stage is about to launch is new. */
  ghost predicate AttemptsFresh(plan: Plan, m: Memory, launches: seq<Launch>) {
    forall l | l in launches && l.index < |m.pcs| && l.index < |plan.stages| && m.pcs[l.index].SavingAttempt? ::
      l.attempt < Attempts(m.state.stages, plan.stages[l.index].name)
  }

  /** A publisher holds only a completed plan, whose stages no longer change. */
  ghost predicate PublisherOk(plan: Plan, c: Config) {
    c.publisher.Some? ==>
      SavedOk(plan, c.publisher.value) && AllComplete(plan, c.publisher.value.stages)
      && c.publisher.value.stages == Stored(c.disk)
  }

  ghost predicate Inv(plan: Plan, c: Config) {
    && (c.disk.Some? ==> SavedOk(plan, c.disk.value))
    && (c.memory.Some? ==>
          MemoryOk(plan, c.disk, c.memory.value) && AttemptsFresh(plan, c.memory.value, c.launches))
    && LaunchesOk(plan, c.launches, Stored(c.disk))
    && PublisherOk(plan, c)
  }

  // ---------- Stage events ----------

  /** A legitimate new entry for stage `i` leaves the stages well gated. */
  lemma RecordedStagesOk(plan: Plan, stages: Stages, i: nat, entry: Entry)
    requires ValidPlan(plan) && StagesOk(plan, stages) && i < |plan.stages|
    requires !Done(stages, plan.stages[i].name) && EarlierDone(plan, stages, i)
    requires Attempts(stages, plan.stages[i].name) <= entry.attempts
    requires entry.status == StageComplete || (Asked(plan, stages, i) && !entry.needsRecovery)
    ensures
      var stages' := stages[plan.stages[i].name := entry];
      StagesOk(plan, stages') && Continues(stages, stages')
  {
    hide EarlierDone, Asked;
    var name := plan.stages[i].name;
    var stages' := stages[name := entry];
    assert Continues(stages, stages');
    forall j | 0 <= j < |plan.stages| && plan.stages[j].name in stages'
      ensures EarlierDone(plan, stages', j) && (!Done(stages', plan.stages[j].name) ==> Asked(plan, stages', j))
    {
      GatesContinue(plan, stages, stages', j);
      assert j != i ==> plan.stages[j].name != name;
    }
  }

  /** Recording a new entry for stage `i` keeps everything said about the stages. */
  lemma RecordKeeps(plan: Plan, disk: Option<Saved>, m: Memory, i: nat, status: RunStatus, entry: Entry, pc: Pc)
    requires ValidPlan(plan) && MemoryOk(plan, disk, m) && i < |plan.stages|
    requires !Done(m.state.stages, plan.stages[i].name) && EarlierDone(plan, m.state.stages, i)
    requires m.closing.None? && !Publishable(status)
    requires Attempts(m.state.stages, plan.stages[i].name) <= entry.attempts
    requires entry.status == StageComplete || (Asked(plan, m.state.stages, i) && !entry.needsRecovery)
    requires (pc == SavingAttempt(m.flushed + |m.queue| + 1) && entry.status == StageRunning)
             || (pc.SavingResult? && (pc.pause.Some? ==> entry.status != StageComplete))
    ensures MemoryOk(plan, disk, At(Record(plan, m, i, status, entry), i, pc))
  {
    hide StagesOk, EarlierDone, Asked, Continues, Monotone, QueueOk;
    var stages, name := m.state.stages, plan.stages[i].name;
    var stages' := stages[name := entry];
    StagesOfQueue(plan, disk, m.queue, stages);
    RecordedStagesOk(plan, stages, i, entry);
    QueuePersists(plan, disk, m.queue, stages, Saved(status, stages'));
    var h := History(disk, m.queue);
    var pcs' := m.pcs[i := pc];
    forall j | 0 <= j < |plan.stages| ensures PcOk(plan, h + [stages'], m.flushed, pcs'[j], stages', j) {
      assert PcOk(plan, h, m.flushed, m.pcs[j], stages, j);
      GatesContinue(plan, stages, stages', j);
      assert j != i ==> plan.stages[j].name != name;
    }
  }

  lemma StagesOfQueue(plan: Plan, disk: Option<Saved>, queue: seq<Saved>, stages: Stages)
    requires QueueOk(plan, disk, queue, stages)
    ensures StagesOk(plan, stages)
  {
  }

  /** Moving stage `i` without recording anything. */
  lemma MoveKeeps(plan: Plan, disk: Option<Saved>, m: Memory, i: nat, pc: Pc, status: RunStatus)
    requires MemoryOk(plan, disk, m) && i < |plan.stages| && !pc.SavingAttempt? && !Publishable(status)
    requires Active(pc) ==>
               !Done(m.state.stages, plan.stages[i].name) && EarlierDone(plan, m.state.stages, i)
               && Asked(plan, m.state.stages, i)
    ensures MemoryOk(plan, disk, At(m, i, pc).(state := m.state.(status := status)))
  {
    hide QueueOk, EarlierDone, Asked;
    var h, pcs' := History(disk, m.queue), m.pcs[i := pc];
    forall j | 0 <= j < |pcs'| ensures PcOk(plan, h, m.flushed, pcs'[j], m.state.stages, j) {
      assert PcOk(plan, h, m.flushed, m.pcs[j], m.state.stages, j);
    }
  }

  lemma EnterKeeps(plan: Plan, disk: Option<Saved>, m: Memory, i: nat)
    requires ValidPlan(plan) && MemoryOk(plan, disk, m) && Started(plan, m, i) && MayEnter(plan, m, i)
    ensures MemoryOk(plan, disk, EnterStage(plan, m, i))
  {
    hide QueueOk, PcsOk, Asked;
    var stage, stages := plan.stages[i], m.state.stages;
    StagesOfQueue(plan, disk, m.queue, stages);
    EnterGates(plan, stages, m, i);
    if Done(stages, stage.name) {
      MoveKeeps(plan, disk, m, i, Finished, m.state.status);
    } else if stage.onlyAfterPartial.Some?
              && !(stage.onlyAfterPartial.value in stages && stages[stage.onlyAfterPartial.value].needsRecovery) {
      NeverAsked(plan, stages, i);
      RecordKeeps(plan, disk, m, i, m.state.status, Entry(StageComplete, 0, [], false),
                  SavingResult(m.flushed + |m.queue| + 1, None));
    } else {
      MoveKeeps(plan, disk, m, i, Deciding, m.state.status);
    }
  }

  lemma EnterGates(plan: Plan, stages: Stages, m: Memory, i: nat)
    requires ValidPlan(plan) && StagesOk(plan, stages) && stages == m.state.stages
    requires Started(plan, m, i) && MayEnter(plan, m, i)
    ensures EarlierDone(plan, stages, i)
    ensures
      var on := plan.stages[i].onlyAfterPartial;
      on.None? || (on.value in stages && stages[on.value].needsRecovery) ==> Asked(plan, stages, i)
  {
  }

  /** A recovery stage that is not asked for has never been begun. */
  lemma NeverAsked(plan: Plan, stages: Stages, i: nat)
    requires StagesOk(plan, stages) && i < |plan.stages| && !Done(stages, plan.stages[i].name)
    requires plan.stages[i].onlyAfterPartial.Some?
    requires !(plan.stages[i].onlyAfterPartial.value in stages
               && stages[plan.stages[i].onlyAfterPartial.value].needsRecovery)
    ensures plan.stages[i].name !in stages
  {
    hide EarlierDone;
  }

  lemma CheckKeeps(plan: Plan, settings: Settings, disk: Option<Saved>, m: Memory, i: nat, clock: nat)
    requires ValidPlan(plan) && MemoryOk(plan, disk, m) && Started(plan, m, i) && m.pcs[i] == Deciding
    ensures MemoryOk(plan, disk, CheckBudget(plan, settings, m, i, clock))
  {
    hide QueueOk, EarlierDone, Asked;
    var name, stages := plan.stages[i].name, m.state.stages;
    assert PcOk(plan, History(disk, m.queue), m.flushed, m.pcs[i], stages, i);
    var ticket := m.flushed + |m.queue| + 1;
    if clock < m.start + settings.budget {
      RecordKeeps(plan, disk, m, i, m.state.status,
                  Entry(StageRunning, Attempts(stages, name) + 1, Pending(stages, name), false), SavingAttempt(ticket));
    } else {
      RecordKeeps(plan, disk, m, i, WaitingPlatform,
                  Entry(StageWaiting, Attempts(stages, name), Pending(stages, name), false), SavingResult(ticket, None));
    }
  }

  lemma ReadKeeps(plan: Plan, settings: Settings, disk: Option<Saved>, m: Memory, i: nat, exitCode: int,
                  summary: Summary)
    requires ValidPlan(plan) && MemoryOk(plan, disk, m) && Started(plan, m, i) && m.pcs[i] == Running
    ensures MemoryOk(plan, disk, ReadResult(plan, settings, m, i, exitCode, summary))
  {
    hide QueueOk, EarlierDone, Asked, Classify;
    var stage, stages := plan.stages[i], m.state.stages;
    var attempts := Attempts(stages, stage.name);
    var result := Classify(stage.kind, exitCode, summary);
    assert PcOk(plan, History(disk, m.queue), m.flushed, m.pcs[i], stages, i);
    var ticket := m.flushed + |m.queue| + 1;
    if result.complete {
      RecordKeeps(plan, disk, m, i, m.state.status, Entry(StageComplete, attempts, [], result.needsRecovery),
                  SavingResult(ticket, None));
    } else if result.fatal {
      RecordKeeps(plan, disk, m, i, RunFailed, Entry(StageFailed, attempts, [], false), SavingResult(ticket, None));
    } else {
      var pending := if result.retryStores != [] then result.retryStores else Pending(stages, stage.name);
      RecordKeeps(plan, disk, m, i, if result.deferred then WaitingResource else WaitingPlatform,
                  Entry(if result.deferred then StageWaitingResource else StageRetrying, attempts, pending, false),
                  SavingResult(ticket, Some(Pause(plan, settings, stage, result.deferred))));
    }
  }

  lemma StageEventKeeps(plan: Plan, settings: Settings, disk: Option<Saved>, m: Memory, clock: nat, e: Event)
    requires ValidPlan(plan) && MemoryOk(plan, disk, m) && StageEvent(plan, settings, m, clock, e).Some?
    ensures MemoryOk(plan, disk, StageEvent(plan, settings, m, clock, e).value)
  {
    hide QueueOk, EarlierDone, Asked, EnterStage, CheckBudget, ReadResult, StageArgs;
    var h := History(disk, m.queue);
    match e
    case Enter(i) => EnterKeeps(plan, disk, m, i);
    case Check(i) => CheckKeeps(plan, settings, disk, m, i, clock);
    case Exit(i, exitCode, summary) => ReadKeeps(plan, settings, disk, m, i, exitCode, summary);
    case Start(i) =>
      assert PcOk(plan, h, m.flushed, m.pcs[i], m.state.stages, i);
      MoveKeeps(plan, disk, m, i, Running, m.state.status);
      MoveKeeps(plan, disk, m, i, Dead, m.state.status);
    case Throw(i) => MoveKeeps(plan, disk, m, i, Dead, m.state.status);
    case Settle(i) =>
      assert PcOk(plan, h, m.flushed, m.pcs[i], m.state.stages, i);
      MoveKeeps(plan, disk, m, i, if m.pcs[i].pause.Some? then Sleeping(clock + m.pcs[i].pause.value) else Finished,
                m.state.status);
    case Wake(i) =>
      assert PcOk(plan, h, m.flushed, m.pcs[i], m.state.stages, i);
      MoveKeeps(plan, disk, m, i, Deciding, RunRunning);
    case _ =>
  }

  // ---------- Attempt numbers ----------

  /** What a stage's event does to the other stages, and to its own attempt number. */
  lemma StageEventFrame(plan: Plan, settings: Settings, m: Memory, clock: nat, e: Event, j: nat)
    requires ValidPlan(plan) && j < |plan.stages| && StageEvent(plan, settings, m, clock, e).Some?
    ensures
      var m' := StageEvent(plan, settings, m, clock, e).value;
      && |m'.pcs| == |m.pcs| == |plan.stages|
      && (m'.pcs[j].SavingAttempt? ==>
            || (m.pcs[j] == m'.pcs[j]
                && Attempts(m'.state.stages, plan.stages[j].name) == Attempts(m.state.stages, plan.stages[j].name))
            || Attempts(m'.state.stages, plan.stages[j].name) == Attempts(m.state.stages, plan.stages[j].name) + 1)
      && (e.Start? && e.i == j ==> !m'.pcs[j].SavingAttempt?)
  {
    hide Classify, StageArgs, MayEnter;
  }

  lemma LaunchedBefore(plan: Plan, disk: Option<Saved>, m: Memory, launches: seq<Launch>, l: Launch)
    requires MemoryOk(plan, disk, m) && LaunchesOk(plan, launches, Stored(disk)) && l in launches
    ensures l.index < |plan.stages| && l.attempt <= Attempts(m.state.stages, plan.stages[l.index].name)
  {
    hide QueueOk, StagesOk;
    MemoryContinuesDisk(plan, disk, m.queue, m.state.stages);
    assert LaunchOk(plan, l, Stored(disk));
  }

  lemma FreshKeeps(plan: Plan, settings: Settings, c: Config, m: Memory, e: Event)
    requires ValidPlan(plan) && Inv(plan, c) && c.memory == Some(m)
    requires StageEvent(plan, settings, m, c.clock, e).Some?
    ensures
      var m' := StageEvent(plan, settings, m, c.clock, e).value;
      AttemptsFresh(plan, m', c.launches + Launched(plan, c, m, m', e))
  {
    hide QueueOk, PcsOk, StageEvent, LaunchOk;
    var m' := StageEvent(plan, settings, m, c.clock, e).value;
    forall l | l in c.launches + Launched(plan, c, m, m', e) && l.index < |m'.pcs| && l.index < |plan.stages|
               && m'.pcs[l.index].SavingAttempt?
      ensures l.attempt < Attempts(m'.state.stages, plan.stages[l.index].name)
    {
      StageEventFrame(plan, settings, m, c.clock, e, l.index);
      assert l in c.launches;
      LaunchedBefore(plan, c.disk, m, c.launches, l);
    }
  }

  lemma LaunchKeeps(plan: Plan, settings: Settings, c: Config, m: Memory, e: Event)
    requires ValidPlan(plan) && Inv(plan, c) && c.memory == Some(m)
    requires StageEvent(plan, settings, m, c.clock, e).Some?
    ensures
      var m' := StageEvent(plan, settings, m, c.clock, e).value;
      LaunchesOk(plan, c.launches + Launched(plan, c, m, m', e), Stored(c.disk))
  {
    hide QueueOk, EnterStage, CheckBudget, ReadResult, StageArgs, StagesOk, Asked, EarlierDone, Continues;
    var m' := StageEvent(plan, settings, m, c.clock, e).value;
    var more := Launched(plan, c, m, m', e);
    if e.Start? && more != [] {
      var l := more[0];
      LaunchIsGated(plan, c, m, e.i);
      var all := c.launches + more;
      forall a, b | 0 <= a < b < |all| && all[a].index == all[b].index ensures all[a].attempt < all[b].attempt {
        if b == |c.launches| {
          assert c.launches[a] in c.launches;
        }
      }
    } else {
      assert c.launches + more == c.launches;
    }
  }

  lemma LaunchIsGated(plan: Plan, c: Config, m: Memory, i: nat)
    requires Inv(plan, c) && c.memory == Some(m) && Started(plan, m, i)
    requires m.pcs[i].SavingAttempt? && m.pcs[i].ticket <= m.flushed
    ensures
      var name, stored := plan.stages[i].name, Stored(c.disk);
      && name in stored && name in m.state.stages && stored[name] == m.state.stages[name]
      && stored[name].status == StageRunning && StagesOk(plan, stored) && Continues(stored, stored)
  {
    hide EarlierDone, Asked, StagesOk, LaunchesOk, Monotone;
    var h := History(c.disk, m.queue);
    assert PcOk(plan, h, m.flushed, m.pcs[i], m.state.stages, i);
    assert h[0] == Stored(c.disk);
    Unchanged(Stored(c.disk));
  }

  // ---------- The other events ----------

  lemma EmptyStagesOk(plan: Plan)
    ensures StagesOk(plan, map[])
  {
  }

  lemma StoredOk(plan: Plan, c: Config)
    requires Inv(plan, c)
    ensures StagesOk(plan, Stored(c.disk))
  {
    hide StagesOk, MemoryOk, LaunchesOk, AttemptsFresh;
    EmptyStagesOk(plan);
  }

  lemma ActivateKeeps(plan: Plan, c: Config)
    requires Inv(plan, c) && c.memory.None?
    ensures Inv(plan, ActivateRun(plan, c))
  {
    hide StagesOk, AllComplete, LaunchesOk, Continues, EarlierDone, Asked;
    var stages := Stored(c.disk);
    StoredOk(plan, c);
    Unchanged(stages);
    var state := Saved(RunRunning, stages);
    assert History(c.disk, [state]) == [stages, stages];
  }

  /** Writing the next snapshot moves every position one forward. */
  lemma FlushKeepsPcs(plan: Plan, h: seq<Stages>, flushed: nat, pcs: seq<Pc>, stages: Stages)
    requires PcsOk(plan, h, flushed, pcs, stages) && |h| > 1
    ensures PcsOk(plan, h[1..], flushed + 1, pcs, stages)
  {
    hide EarlierDone, Asked;
    forall i | 0 <= i < |pcs| ensures PcOk(plan, h[1..], flushed + 1, pcs[i], stages, i) {
      assert PcOk(plan, h, flushed, pcs[i], stages, i);
      var name := plan.stages[i].name;
      if pcs[i].SavingAttempt? {
        forall k | 0 <= k < |h[1..]| && pcs[i].ticket <= flushed + 1 + k
          ensures name in h[1..][k] && h[1..][k][name] == stages[name]
        {
          assert h[1..][k] == h[k + 1];
        }
      }
    }
  }

  lemma LaunchesContinue(plan: Plan, launches: seq<Launch>, disk: Stages, disk': Stages)
    requires LaunchesOk(plan, launches, disk) && Continues(disk, disk')
    ensures LaunchesOk(plan, launches, disk')
  {
    hide StagesOk, Continues, StageArgs;
    forall l | l in launches ensures LaunchOk(plan, l, disk') {
      assert LaunchOk(plan, l, disk);
      ContinuesIsTransitive(l.stored, disk, disk');
    }
  }

  lemma FlushKeeps(plan: Plan, settings: Settings, c: Config)
    requires ValidPlan(plan) && Inv(plan, c) && Next(plan, settings, c, Flush).Some?
    ensures Inv(plan, Next(plan, settings, c, Flush).value)
    ensures Continues(Stored(c.disk), Stored(Next(plan, settings, c, Flush).value.disk))
  {
    hide StagesOk, Continues, PcsOk, LaunchesOk, AllComplete, Monotone;
    var m := c.memory.value;
    QueueFlushes(plan, c.disk, m.queue, m.state.stages);
    FlushKeepsPcs(plan, History(c.disk, m.queue), m.flushed, m.pcs, m.state.stages);
    LaunchesContinue(plan, c.launches, Stored(c.disk), m.queue[0].stages);
    if c.publisher.Some? {
      SavedStagesOk(plan, m.queue[0]);
      CompletedIsFinal(plan, Stored(c.disk), m.queue[0].stages);
    }
  }

  lemma SavedStagesOk(plan: Plan, v: Saved)
    requires SavedOk(plan, v)
    ensures StagesOk(plan, v.stages)
    ensures Publishable(v.status) ==> AllComplete(plan, v.stages)
    ensures AllComplete(plan, v.stages) ==> SavedOk(plan, v.(status := Published))
  {
  }

  lemma CloseKeeps(plan: Plan, c: Config, m: Memory)
    requires Inv(plan, c) && c.memory == Some(m) && m.closing.None?
    ensures Inv(plan, c.(memory := Some(CloseRun(plan, m))))
  {
    hide StagesOk, Continues, LaunchesOk, AllComplete, Monotone, QueueOk, EarlierDone, Asked;
    var m' := CloseRun(plan, m);
    var stages := m.state.stages;
    StagesOfQueue(plan, c.disk, m.queue, stages);
    Unchanged(stages);
    QueuePersists(plan, c.disk, m.queue, stages, m'.state);
    var h := History(c.disk, m.queue);
    assert m'.queue == m.queue + [m'.state];
    LastOfQueue(plan, c.disk, m.queue, stages);
    forall i | 0 <= i < |m.pcs| ensures PcOk(plan, h + [stages], m.flushed, m.pcs[i], stages, i) {
      assert PcOk(plan, h, m.flushed, m.pcs[i], stages, i);
    }
  }

  lemma LastOfQueue(plan: Plan, disk: Option<Saved>, queue: seq<Saved>, stages: Stages)
    requires QueueOk(plan, disk, queue, stages)
    ensures History(disk, queue)[|queue|] == stages
  {
  }

  lemma PublishKeeps(plan: Plan, c: Config)
    requires Inv(plan, c)
    ensures c.disk.Some? && c.disk.value.status == ReadyToPublish ==> Inv(plan, c.(publisher := c.disk))
    ensures c.publisher.Some? ==>
              Inv(plan, c.(disk := Some(c.publisher.value.(status := Published)), publisher := None))
  {
    hide StagesOk, Continues, LaunchesOk, PcsOk, AllComplete, Monotone, AttemptsFresh, SavedOk;
    if c.disk.Some? {
      SavedStagesOk(plan, c.disk.value);
    }
    if c.publisher.Some? {
      SavedStagesOk(plan, c.publisher.value);
      var disk' := Some(c.publisher.value.(status := Published));
      assert Stored(disk') == Stored(c.disk);
      if c.memory.Some? {
        assert History(disk', c.memory.value.queue) == History(c.disk, c.memory.value.queue);
      }
    }
  }

  // ---------- Every step ----------

  predicate OfStage(e: Event) {
    e.Enter? || e.Check? || e.Start? || e.Exit? || e.Throw? || e.Settle? || e.Wake?
  }

  lemma StageStepKeeps(plan: Plan, settings: Settings, c: Config, e: Event)
    requires ValidPlan(plan) && Inv(plan, c) && OfStage(e) && Next(plan, settings, c, e).Some?
    ensures Inv(plan, Next(plan, settings, c, e).value)
  {
    hide MemoryOk, AttemptsFresh, LaunchesOk, PublisherOk, SavedOk, StageEvent, Launched;
    var m := c.memory.value;
    StageEventKeeps(plan, settings, c.disk, m, c.clock, e);
    FreshKeeps(plan, settings, c, m, e);
    LaunchKeeps(plan, settings, c, m, e);
    var m' := StageEvent(plan, settings, m, c.clock, e).value;
    PublisherIgnores(plan, c, c.(memory := Some(m'), launches := c.launches + Launched(plan, c, m, m', e)));
  }

  lemma PublisherIgnores(plan: Plan, c: Config, c': Config)
    requires PublisherOk(plan, c) && c'.publisher == c.publisher && c'.disk == c.disk
    ensures PublisherOk(plan, c')
  {
  }

  lemma StepKeeps(plan: Plan, settings: Settings, c: Config, e: Event)
    requires ValidPlan(plan) && Inv(plan, c) && Next(plan, settings, c, e).Some?
    ensures Inv(plan, Next(plan, settings, c, e).value)
  {
    hide MemoryOk, AttemptsFresh, LaunchesOk, SavedOk, StageEvent, Launched, ActivateRun, CloseRun, AllReturned;
    match e
    case Activate => ActivateKeeps(plan, c);
    case Flush => FlushKeeps(plan, settings, c);
    case Close => CloseKeeps(plan, c, c.memory.value);
    case Return =>
    case Crash =>
    case PublishRead => PublishKeeps(plan, c);
    case PublishWrite => PublishKeeps(plan, c);
    case Tick(passed) =>
    case _ => StageStepKeeps(plan, settings, c, e);
  }

  /** One step never takes back what is stored, and launches only stages stored as running. */
  lemma StepContinues(plan: Plan, settings: Settings, c: Config, e: Event)
    requires ValidPlan(plan) && Inv(plan, c) && Next(plan, settings, c, e).Some?
    ensures
      var c' := Next(plan, settings, c, e).value;
      && Continues(Stored(c.disk), Stored(c'.disk))
      && |c.launches| <= |c'.launches| && c'.launches[..|c.launches|] == c.launches
      && forall k | |c.launches| <= k < |c'.launches| :: c'.launches[k].stored == Stored(c.disk)
  {
    hide MemoryOk, AttemptsFresh, LaunchesOk, SavedOk, StageEvent, ActivateRun, CloseRun, AllReturned, Continues;
    Unchanged(Stored(c.disk));
    if e == Flush {
      FlushKeeps(plan, settings, c);
    }
    ActivateRunKeepsDisk(plan, c);
  }

  lemma ActivateRunKeepsDisk(plan: Plan, c: Config)
    ensures ActivateRun(plan, c).disk == c.disk && ActivateRun(plan, c).launches == c.launches
  {
  }

  // ---------- Every run ----------

  lemma InitiallyOk(plan: Plan, clock: nat)
    ensures Inv(plan, Initially(clock))
  {
    hide StagesOk;
  }

  lemma {:induction false} RunKeeps(plan: Plan, settings: Settings, c: Config, events: seq<Event>)
    requires ValidPlan(plan) && Inv(plan, c) && Run(plan, settings, c, events).Some?
    ensures Inv(plan, Run(plan, settings, c, events).value)
  {
    hide Inv, Next;
    if events != [] {
      var before := Run(plan, settings, c, events[..|events| - 1]).value;
      RunKeeps(plan, settings, c, events[..|events| - 1]);
      StepKeeps(plan, settings, before, events[|events| - 1]);
    }
  }

  /** `c` can occur: some run from an empty state directory leads there. */
  ghost predicate Reachable(plan: Plan, settings: Settings, c: Config) {
    exists clock: nat, events: seq<Event> :: Run(plan, settings, Initially(clock), events) == Some(c)
  }

  lemma ReachableOk(plan: Plan, settings: Settings, c: Config)
    requires ValidPlan(plan) && Reachable(plan, settings, c)
    ensures Inv(plan, c)
  {
    hide Inv, Run;
    var clock: nat, events: seq<Event> :| Run(plan, settings, Initially(clock), events) == Some(c);
    InitiallyOk(plan, clock);
    RunKeeps(plan, settings, Initially(clock), events);
  }

  /** Successive launches of one stage carry strictly increasing attempt numbers, over all activations. */
  lemma AttemptsNeverRepeat(plan: Plan, settings: Settings, c: Config, a: nat, b: nat)
    requires ValidPlan(plan) && Reachable(plan, settings, c)
    requires a < b < |c.launches| && c.launches[a].index == c.launches[b].index
    ensures c.launches[a].attempt < c.launches[b].attempt
  {
    hide MemoryOk, AttemptsFresh, SavedOk, Run;
    ReachableOk(plan, settings, c);
  }

  /** So no two launches of an attempt-scoped stage share a run id. */
  lemma RunIdsNeverRepeat(task: Task, runId: string, d: Today, settings: Settings, c: Config, a: nat, b: nat)
    requires runId != "" && runId[0] != '-'
    requires Reachable(BuildPlan(task, runId, d), settings, c)
    requires a < b < |c.launches| && c.launches[a].index == c.launches[b].index
    requires
      c.launches[a].index < |BuildPlan(task, runId, d).stages|
      && BuildPlan(task, runId, d).stages[c.launches[a].index].attemptScopedRunId
    ensures
      var stage, x, y := BuildPlan(task, runId, d).stages[c.launches[a].index], c.launches[a], c.launches[b];
      && StageArgs(stage, x.stores, x.attempt).Success? && StageArgs(stage, y.stores, y.attempt).Success?
      && RunIdOf(StageArgs(stage, x.stores, x.attempt).value) != RunIdOf(StageArgs(stage, y.stores, y.attempt).value)
  {
    hide StageArgs, RunIdOf, Reachable, ScopedRunId, BuildPlan;
    var plan := BuildPlan(task, runId, d);
    var stage, x, y := plan.stages[c.launches[a].index], c.launches[a], c.launches[b];
    BuiltPlansAreValid(task, runId, d);
    AttemptsNeverRepeat(plan, settings, c, a, b);
    LaunchCarriesAttempt(task, runId, d, stage, x.stores, x.attempt);
    LaunchCarriesAttempt(task, runId, d, stage, y.stores, y.attempt);
    if ScopedRunId(runId, x.attempt) == ScopedRunId(runId, y.attempt) {
      ScopedRunIdInjective(runId, x.attempt, y.attempt);
    }
  }

  /** A run is stored as ready, or published, only with every stage of its plan complete. */
  lemma PublicationIsGated(plan: Plan, settings: Settings, c: Config)
    requires ValidPlan(plan) && Reachable(plan, settings, c)
    requires c.disk.Some? && (c.disk.value.status == ReadyToPublish || c.disk.value.status == Published)
    ensures forall i | 0 <= i < |plan.stages| :: Done(c.disk.value.stages, plan.stages[i].name)
  {
    hide MemoryOk, AttemptsFresh, LaunchesOk, Run;
    ReachableOk(plan, settings, c);
  }

  /**
   Every launch found its own attempt stored as running; in a sequential plan all earlier stages
   stored as complete; and for a recovery stage, the stage it depends on stored as complete and
   asking for recovery.
   */
  lemma LaunchesAreGated(plan: Plan, settings: Settings, c: Config, l: Launch)
    requires ValidPlan(plan) && Reachable(plan, settings, c) && l in c.launches
    ensures l.index < |plan.stages|
    ensures
      var stage := plan.stages[l.index];
      && stage.name in l.stored && l.stored[stage.name].status == StageRunning
      && l.stored[stage.name].attempts == l.attempt
      && (!plan.parallel ==> forall j | 0 <= j < l.index :: Done(l.stored, plan.stages[j].name))
      && (stage.onlyAfterPartial.Some? ==>
            Done(l.stored, stage.onlyAfterPartial.value) && l.stored[stage.onlyAfterPartial.value].needsRecovery)
  {
    hide MemoryOk, AttemptsFresh, SavedOk, Run;
    ReachableOk(plan, settings, c);
    assert LaunchOk(plan, l, Stored(c.disk));
  }

  /** A stage stored as complete stays so and is never launched again, whatever happens next. */
  lemma {:induction false} CompletedStagesRest(plan: Plan, settings: Settings, c: Config, events: seq<Event>)
    requires ValidPlan(plan) && Inv(plan, c) && Run(plan, settings, c, events).Some?
    ensures
      var c' := Run(plan, settings, c, events).value;
      && Continues(Stored(c.disk), Stored(c'.disk))
      && |c.launches| <= |c'.launches| && c'.launches[..|c.launches|] == c.launches
      && forall k | |c.launches| <= k < |c'.launches| :: Continues(Stored(c.disk), c'.launches[k].stored)
  {
    hide Inv, Next, Continues;
    Unchanged(Stored(c.disk));
    if events != [] {
      var front, last := events[..|events| - 1], events[|events| - 1];
      var b := Run(plan, settings, c, front).value;
      var c' := Next(plan, settings, b, last).value;
      CompletedStagesRest(plan, settings, c, front);
      RunKeeps(plan, settings, c, front);
      StepContinues(plan, settings, b, last);
      ContinuesIsTransitive(Stored(c.disk), Stored(b.disk), Stored(c'.disk));
      forall k | |c.launches| <= k < |c'.launches| ensures Continues(Stored(c.disk), c'.launches[k].stored) {
        if k < |b.launches| {
          assert b.launches[k] == c'.launches[k];
        }
      }
    }
  }

  lemma CompleteIsNeverRelaunched(plan: Plan, settings: Settings, c: Config, events: seq<Event>, c': Config, i: nat)
    requires ValidPlan(plan) && Reachable(plan, settings, c) && Run(plan, settings, c, events) == Some(c')
    requires i < |plan.stages| && Done(Stored(c.disk), plan.stages[i].name)
    ensures Done(Stored(c'.disk), plan.stages[i].name)
    ensures Stored(c'.disk)[plan.stages[i].name] == Stored(c.disk)[plan.stages[i].name]
    ensures |c.launches| <= |c'.launches| && c'.launches[..|c.launches|] == c.launches
    ensures forall k | |c.launches| <= k < |c'.launches| :: c'.launches[k].index != i
  {
    hide MemoryOk, AttemptsFresh, SavedOk, Run, PublisherOk, StagesOk;
    ReachableOk(plan, settings, c);
    RunKeeps(plan, settings, c, events);
    CompletedStagesRest(plan, settings, c, events);
    forall k | |c.launches| <= k < |c'.launches| ensures c'.launches[k].index != i {
      assert LaunchOk(plan, c'.launches[k], Stored(c'.disk));
    }
  }
}
