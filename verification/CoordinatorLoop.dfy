/**
 The code of one activation of a sequential plan, as it is written: assignments to the state, awaited
 writes, a retry loop. Whatever it does is a run of the state machine, so the machine's theorems
 hold of the state file it leaves behind, also when a write or a process fails under it.
 */
module CoordinatorLoop {
  import opened Common
  import opened StageResult
  import opened CoordinatorPlan
  import opened Coordinator
  import opened CoordinatorRuns

  lemma FollowsOn(plan: Plan, settings: Settings, c: Config, events: seq<Event>, e: Event, before: Config, after: Config)
    requires Run(plan, settings, c, events) == Some(before) && Next(plan, settings, before, e) == Some(after)
    ensures Run(plan, settings, c, events + [e]) == Some(after)
  {
    assert (events + [e])[..|events|] == events;
  }

  // ---------- Single steps of the machine ----------

  lemma EnterStep(plan: Plan, settings: Settings, c: Config, m: Memory, i: nat)
    requires c.memory == Some(m) && Started(plan, m, i) && m.pcs[i] == Idle && MayEnter(plan, m, i)
    ensures Next(plan, settings, c, Enter(i)) == Some(c.(memory := Some(EnterStage(plan, m, i))))
  {
    hide EnterStage;
    assert c.launches + [] == c.launches;
  }

  lemma CheckStep(plan: Plan, settings: Settings, c: Config, m: Memory, i: nat)
    requires c.memory == Some(m) && Started(plan, m, i) && m.pcs[i] == Deciding
    ensures Next(plan, settings, c, Check(i)) == Some(c.(memory := Some(CheckBudget(plan, settings, m, i, c.clock))))
  {
    hide CheckBudget;
    assert c.launches + [] == c.launches;
  }

  lemma ExitStep(plan: Plan, settings: Settings, c: Config, m: Memory, i: nat, exitCode: int, summary: Summary)
    requires c.memory == Some(m) && Started(plan, m, i) && m.pcs[i] == Running
    ensures Next(plan, settings, c, Exit(i, exitCode, summary)) ==
            Some(c.(memory := Some(ReadResult(plan, settings, m, i, exitCode, summary))))
  {
    hide ReadResult;
    assert c.launches + [] == c.launches;
  }

  lemma SettleStep(plan: Plan, settings: Settings, c: Config, m: Memory, i: nat)
    requires c.memory == Some(m) && Started(plan, m, i) && m.pcs[i].SavingResult? && m.pcs[i].ticket <= m.flushed
    ensures Next(plan, settings, c, Settle(i)) ==
            Some(c.(memory := Some(At(m, i, if m.pcs[i].pause.Some? then Sleeping(c.clock + m.pcs[i].pause.value)
                                            else Finished))))
  {
    assert c.launches + [] == c.launches;
  }

  lemma CloseSteps(plan: Plan, settings: Settings, c: Config, m: Memory)
    requires c.memory == Some(m) && |m.pcs| == |plan.stages| && m.closing.None? && 1 <= m.flushed && m.queue == []
    requires AllReturned(plan, m)
    ensures
      var closed := CloseRun(plan, m);
      var written := closed.(queue := [], flushed := m.flushed + 1);
      && Next(plan, settings, c, Close) == Some(c.(memory := Some(closed)))
      && Next(plan, settings, c.(memory := Some(closed)), Flush) ==
         Some(c.(disk := Some(closed.state), memory := Some(written)))
      && Next(plan, settings, c.(disk := Some(closed.state), memory := Some(written)), Return) ==
         Some(c.(disk := Some(closed.state), memory := None))
  {
    hide AllReturned, AllComplete;
    var closed := CloseRun(plan, m);
    assert closed.queue == [closed.state] && closed.queue[1..] == [];
  }

  // ---------- The code ----------

  class Activation {
    const plan: Plan
    const settings: Settings
    const faults: Faults
    const start: nat
    var disk: Option<Saved>
    var state: Saved
    var clock: nat
    /** The configuration of the state machine this code stands for, and the events that led there. */
    ghost var config: Config
    ghost var events: seq<Event>
    ghost const origin: Config

    /** The machine has come here from its origin, and shows the same state file. */
    ghost predicate Stands()
      reads this
    {
      Run(plan, settings, origin, events) == Some(config) && config.disk == disk
    }

    /** The activation is under way: the machine shows the same memory and clock, too. */
    ghost predicate Valid()
      reads this
    {
      && Stands() && ValidPlan(plan) && !plan.parallel
      && config.clock == clock && config.memory.Some?
      && var m := config.memory.value;
      && m.state == state && m.start == start && m.closing.None? && state.status != ReadyToPublish
      && |m.pcs| == |m.checks| == |plan.stages|
    }

    /** Nothing waits to be written, and the first write is done. */
    ghost predicate Settled()
      requires Valid()
      reads this
    {
      config.memory.value.queue == [] && 1 <= config.memory.value.flushed
    }

    ghost function Pcs(): seq<Pc>
      requires Valid()
      reads this
    {
      config.memory.value.pcs
    }

    /** The machine takes the step the code has just taken. */
    ghost method Follow(e: Event)
      requires Run(plan, settings, origin, events) == Some(config) && Next(plan, settings, config, e).Some?
      modifies `config, `events
      ensures Run(plan, settings, origin, events) == Some(config)
      ensures config == Next(plan, settings, old(config), e).value
    {
      FollowsOn(plan, settings, origin, events, e, config, Next(plan, settings, config, e).value);
      config := Next(plan, settings, config, e).value;
      events := events + [e];
    }

    /** The start of an activation that finds its run not yet published. */
    constructor (plan: Plan, settings: Settings, faults: Faults, disk: Option<Saved>, clock: nat, ghost origin: Config)
      requires ValidPlan(plan) && !plan.parallel
      requires origin.memory.None? && origin.disk == disk && origin.clock == clock
      requires !(disk.Some? && disk.value.status == Published && AllComplete(plan, disk.value.stages))
      ensures Valid() && this.plan == plan && this.settings == settings && this.faults == faults
      ensures this.origin == origin && this.disk == disk
      ensures config.memory.value.queue == [state] && config.memory.value.flushed == 0
      ensures Pcs() == seq(|plan.stages|, i => Idle)
    {
      this.plan, this.settings, this.faults, this.disk, this.clock := plan, settings, faults, disk, clock;
      start := clock;
      state := Saved(RunRunning, Stored(disk));
      this.origin, config, events := origin, ActivateRun(plan, origin), [Activate];
      new;
      assert Run(plan, settings, origin, []) == Some(origin);
      FollowsOn(plan, settings, origin, [], Activate, origin, config);
      assert [] + [Activate] == [Activate];
    }

    /** await persistState(), with no other write pending: the file is replaced as a whole, or the write throws. */
    method AwaitPersist() returns (ok: bool)
      requires Valid() && config.memory.value.queue == [state]
      modifies `disk, `config, `events, faults
      ensures (old(faults.hit) ==> faults.hit) && (ok ==> faults.hit == old(faults.hit))
      ensures !ok ==> faults.hit || NotBuildable(plan)
      ensures !ok ==> Stands()
      ensures ok ==>
                && Valid() && Settled() && disk == Some(state) && Pcs() == old(Pcs())
                && config.memory.value.flushed == old(config.memory.value.flushed) + 1
    {
      var bad := faults.Strike();
      if bad {
        return false;
      }
      disk := Some(state);
      Follow(Flush);
      return true;
    }

    /** Time passes. */
    method Elapse(atLeast: nat)
      requires Valid()
      modifies `clock, `config, `events
      ensures Valid() && clock >= old(clock) + atLeast
      ensures config == old(config).(clock := clock)
    {
      var drift: int := *;
      var more := if drift < 0 then 0 else drift;
      clock := clock + atLeast + more;
      Follow(Tick(atLeast + more));
    }

    /** The head of the retry loop up to the launched process. */
    method BeginAttempt(i: nat, attempts: nat, pending: seq<string>) returns (ok: bool)
      requires Valid() && Settled() && i < |plan.stages| && Pcs()[i] == Deciding
      requires clock < start + settings.budget
      requires attempts == Attempts(state.stages, plan.stages[i].name) + 1
      requires pending == Pending(state.stages, plan.stages[i].name)
      modifies `disk, `state, `config, `events, faults
      ensures (old(faults.hit) ==> faults.hit) && (ok ==> faults.hit == old(faults.hit))
      ensures !ok ==> faults.hit || NotBuildable(plan)
      ensures !ok ==> Stands()
      ensures ok ==>
                && Valid() && Settled() && Pcs() == old(Pcs())[i := Running]
                && state == Saved(old(state).status,
                                  old(state).stages[plan.stages[i].name := Entry(StageRunning, attempts, pending, false)])
    {
      hide Run, StageArgs;
      var stage := plan.stages[i];
      CheckStep(plan, settings, config, config.memory.value, i);
      state := state.(stages := state.stages[stage.name := Entry(StageRunning, attempts, pending, false)]);
      Follow(Check(i));
      assert config.memory.value.queue == [state];
      ok := AwaitPersist();
      if !ok {
        return;
      }
      var args := StageArgsForStores(stage, pending, attempts);
      Follow(Start(i));
      ArgsBuildAlways(stage, pending, attempts);
      return args.Success?;
    }

    /** The process runs: it exits with a code and a summary, or is killed. */
    method AwaitProcess(i: nat) returns (ok: bool, exitCode: int, summary: Summary)
      requires Valid() && Settled() && i < |plan.stages| && Pcs()[i] == Running
      modifies `clock, `config, `events, faults
      ensures (old(faults.hit) ==> faults.hit) && (ok ==> faults.hit == old(faults.hit))
      ensures !ok ==> faults.hit || NotBuildable(plan)
      ensures !ok ==> Stands()
      ensures ok ==> Valid() && Settled() && Pcs() == old(Pcs()) && clock > old(clock)
    {
      hide Run;
      exitCode, summary := *, *;
      Elapse(1);
      var killed := faults.Strike();
      if killed {
        Follow(Throw(i));
        return false, exitCode, summary;
      }
      return true, exitCode, summary;
    }

    /** Classifies a result and records it; `again` says that the loop goes on. */
    method RecordResult(i: nat, attempts: nat, pending: seq<string>, exitCode: int, summary: Summary)
      returns (again: bool, pending': seq<string>, ghost pause: nat)
      requires Valid() && Settled() && i < |plan.stages| && Pcs()[i] == Running
      requires attempts == Attempts(state.stages, plan.stages[i].name)
      requires pending == Pending(state.stages, plan.stages[i].name)
      modifies `state, `config, `events
      ensures Valid() && config.memory.value.queue == [state]
      ensures config.memory.value.flushed == old(config).memory.value.flushed
      ensures Pcs() == old(Pcs())[i := SavingResult(config.memory.value.flushed + 1, if again then Some(pause) else None)]
      ensures SameElsewhere(old(state).stages, state.stages, plan.stages[i].name)
      ensures attempts == Attempts(state.stages, plan.stages[i].name)
      ensures again ==> pending' == Pending(state.stages, plan.stages[i].name)
      ensures again ==> !Done(state.stages, plan.stages[i].name)
      ensures again ==> pause == Pause(plan, settings, plan.stages[i], state.status == WaitingResource)
    {
      hide Run, Classify, Next, StageEvent, Pause;
      var stage := plan.stages[i];
      ExitStep(plan, settings, config, config.memory.value, i, exitCode, summary);
      var result := Classify(stage.kind, exitCode, summary);
      pending' := pending;
      if result.complete {
        state := state.(stages := state.stages[stage.name := Entry(StageComplete, attempts, [], result.needsRecovery)]);
      } else if result.fatal {
        state := Saved(RunFailed, state.stages[stage.name := Entry(StageFailed, attempts, [], false)]);
      } else {
        if result.retryStores != [] {
          pending' := result.retryStores;
        }
        state := Saved(if result.deferred then WaitingResource else WaitingPlatform,
                       state.stages[stage.name := Entry(if result.deferred then StageWaitingResource else StageRetrying,
                                                        attempts, pending', false)]);
      }
      again := !result.complete && !result.fatal;
      pause := Pause(plan, settings, stage, result.deferred);
      Follow(Exit(i, exitCode, summary));
    }

    /** The rest of the loop body: the result is recorded and written, and the loop sleeps if it goes on. */
    method FinishAttempt(i: nat, attempts: nat, pending: seq<string>, exitCode: int, summary: Summary)
      returns (ok: bool, again: bool, pending': seq<string>)
      requires Valid() && Settled() && i < |plan.stages| && Pcs()[i] == Running
      requires attempts == Attempts(state.stages, plan.stages[i].name)
      requires pending == Pending(state.stages, plan.stages[i].name)
      modifies `disk, `state, `clock, `config, `events, faults
      ensures (old(faults.hit) ==> faults.hit) && (ok ==> faults.hit == old(faults.hit))
      ensures !ok ==> faults.hit || NotBuildable(plan)
      ensures !ok ==> Stands()
      ensures ok ==>
                && Valid() && Settled() && Pcs() == old(Pcs())[i := if again then Deciding else Finished]
                && clock >= old(clock) && SameElsewhere(old(state).stages, state.stages, plan.stages[i].name)
                && attempts == Attempts(state.stages, plan.stages[i].name)
      ensures ok && again ==> pending' == Pending(state.stages, plan.stages[i].name)
      ensures ok && again ==> !Done(state.stages, plan.stages[i].name)
    {
      hide Run, Next, StageEvent, SameElsewhere, Pause;
      ghost var pause;
      again, pending', pause := RecordResult(i, attempts, pending, exitCode, summary);
      ok := AwaitPersist();
      if !ok {
        return;
      }
      SettleStep(plan, settings, config, config.memory.value, i);
      Follow(Settle(i));
      if again {
        Sleep(i, Pause(plan, settings, plan.stages[i], state.status == WaitingResource));
      }
    }

    /** await sleep(delay), after which the run counts as running again. */
    method Sleep(i: nat, delay: nat)
      requires Valid() && Settled() && i < |plan.stages| && Pcs()[i] == Sleeping(clock + delay)
      modifies `state, `clock, `config, `events
      ensures Valid() && Settled() && Pcs() == old(Pcs())[i := Deciding] && clock >= old(clock) + delay
      ensures state == old(state).(status := RunRunning)
    {
      hide Run;
      Elapse(delay);
      state := state.(status := RunRunning);
      Follow(Wake(i));
    }

    /** The end of a loop whose time is up. */
    method GiveUp(i: nat, attempts: nat, pending: seq<string>) returns (ok: bool)
      requires Valid() && Settled() && i < |plan.stages| && Pcs()[i] == Deciding
      requires clock >= start + settings.budget
      requires attempts == Attempts(state.stages, plan.stages[i].name)
      requires pending == Pending(state.stages, plan.stages[i].name)
      modifies `disk, `state, `config, `events, faults
      ensures (old(faults.hit) ==> faults.hit) && (ok ==> faults.hit == old(faults.hit))
      ensures !ok ==> faults.hit || NotBuildable(plan)
      ensures !ok ==> Stands()
      ensures ok ==>
                && Valid() && Settled() && Pcs() == old(Pcs())[i := Finished]
                && SameElsewhere(old(state).stages, state.stages, plan.stages[i].name)
                && !Done(state.stages, plan.stages[i].name)
    {
      hide Run, Next, StageEvent;
      CheckStep(plan, settings, config, config.memory.value, i);
      state := Saved(WaitingPlatform,
                     state.stages[plan.stages[i].name := Entry(StageWaiting, attempts, pending, false)]);
      Follow(Check(i));
      assert config.memory.value.queue == [state];
      ok := AwaitPersist();
      if ok {
        SettleStep(plan, settings, config, config.memory.value, i);
        Follow(Settle(i));
      }
    }

    /** A conditional stage that is not asked for is recorded as complete. */
    method Skip(i: nat) returns (ok: bool)
      requires Valid() && Settled() && i < |plan.stages| && Pcs()[i] == Idle && EarlierReturned(i)
      requires !Done(state.stages, plan.stages[i].name) && plan.stages[i].onlyAfterPartial.Some?
      requires
        var on := plan.stages[i].onlyAfterPartial.value;
        !(on in state.stages && state.stages[on].needsRecovery)
      modifies `disk, `state, `config, `events, faults
      ensures (old(faults.hit) ==> faults.hit) && (ok ==> faults.hit == old(faults.hit))
      ensures !ok ==> faults.hit || NotBuildable(plan)
      ensures !ok ==> Stands()
      ensures ok ==>
                && Valid() && Settled() && Pcs() == old(Pcs())[i := Finished]
                && SameElsewhere(old(state).stages, state.stages, plan.stages[i].name)
                && Done(state.stages, plan.stages[i].name)
    {
      hide Run, Next, StageEvent;
      EnterStep(plan, settings, config, config.memory.value, i);
      state := state.(stages := state.stages[plan.stages[i].name := Entry(StageComplete, 0, [], false)]);
      Follow(Enter(i));
      assert config.memory.value.queue == [state];
      ok := AwaitPersist();
      if ok {
        SettleStep(plan, settings, config, config.memory.value, i);
        Follow(Settle(i));
      }
    }

    /** Every stage before `i` has returned COMPLETE. */
    ghost predicate EarlierReturned(i: nat)
      requires Valid() && i <= |plan.stages|
      reads this
    {
      ReturnedUpTo(plan, config.memory.value, i)
    }

    /** executeStage: its retry loop, and what it returns, COMPLETE or not. */
    method ExecuteStage(i: nat) returns (ok: bool, complete: bool)
      requires Valid() && Settled() && i < |plan.stages| && Pcs()[i] == Idle && EarlierReturned(i)
      modifies `disk, `state, `clock, `config, `events, faults
      ensures (old(faults.hit) ==> faults.hit) && (ok ==> faults.hit == old(faults.hit))
      ensures !ok ==> faults.hit || NotBuildable(plan)
      ensures !ok ==> Stands()
      ensures ok ==>
                && Valid() && Settled() && Pcs() == old(Pcs())[i := Finished]
                && SameElsewhere(old(state).stages, state.stages, plan.stages[i].name)
                && complete == Done(state.stages, plan.stages[i].name)
    {
      hide Run, Next, StageEvent, Pause, SameElsewhere;
      var stage := plan.stages[i];
      SameAgain(state.stages, stage.name);
      EnterStep(plan, settings, config, config.memory.value, i);
      if Done(state.stages, stage.name) {
        Follow(Enter(i));
        return true, true;
      }
      if stage.onlyAfterPartial.Some?
         && !(stage.onlyAfterPartial.value in state.stages
              && state.stages[stage.onlyAfterPartial.value].needsRecovery) {
        ok := Skip(i);
        return ok, true;
      }
      Follow(Enter(i));
      ok, complete := RetryLoop(i);
    }

    /** The retry loop of executeStage. */
    method RetryLoop(i: nat) returns (ok: bool, complete: bool)
      requires Valid() && Settled() && i < |plan.stages| && Pcs()[i] == Deciding
      modifies `disk, `state, `clock, `config, `events, faults
      ensures (old(faults.hit) ==> faults.hit) && (ok ==> faults.hit == old(faults.hit))
      ensures !ok ==> faults.hit || NotBuildable(plan)
      ensures !ok ==> Stands()
      ensures ok ==>
                && Valid() && Settled() && Pcs() == old(Pcs())[i := Finished]
                && SameElsewhere(old(state).stages, state.stages, plan.stages[i].name)
                && complete == Done(state.stages, plan.stages[i].name)
    {
      hide Run, Next, StageEvent, Pause, SameElsewhere;
      ghost var name, before := plan.stages[i].name, state.stages;
      var attempts, pending := Attempts(state.stages, plan.stages[i].name), Pending(state.stages, plan.stages[i].name);
      ghost var entered := Pcs();
      SameAgain(before, name);
      while clock < start + settings.budget
        invariant Valid() && Settled() && Pcs() == entered && SameElsewhere(before, state.stages, name)
        invariant faults.hit == old(faults.hit)
        invariant attempts == Attempts(state.stages, name) && pending == Pending(state.stages, name)
        decreases start + settings.budget - clock
      {
        ghost var here := state.stages;
        attempts := attempts + 1;
        ok := BeginAttempt(i, attempts, pending);
        if !ok {
          return ok, false;
        }
        ghost var launched := state.stages;
        var exitCode, summary;
        ok, exitCode, summary := AwaitProcess(i);
        if !ok {
          return ok, false;
        }
        var again;
        ok, again, pending := FinishAttempt(i, attempts, pending, exitCode, summary);
        if !ok {
          return ok, false;
        }
        SameChain(before, here, launched, state.stages, name);
        if !again {
          return true, Done(state.stages, plan.stages[i].name);
        }
      }
      ghost var here := state.stages;
      ok := GiveUp(i, attempts, pending);
      if ok {
        SameChain(before, here, here, state.stages, name);
      }
      return ok, false;
    }

    /**
     The body of runCoordinator for a sequential plan: stages in order, stopping at the first that is
     not COMPLETE; then the run is stored as READY_TO_PUBLISH exactly when every stage is COMPLETE.
     */
    method RunStages() returns (ok: bool)
      requires Valid() && config.memory.value.queue == [state] && config.memory.value.flushed == 0
      requires forall i | 0 <= i < |plan.stages| :: Pcs()[i] == Idle
      modifies `disk, `state, `clock, `config, `events, faults
      ensures (old(faults.hit) ==> faults.hit) && (ok ==> faults.hit == old(faults.hit))
      ensures !ok ==> faults.hit || NotBuildable(plan)
      ensures Stands()
      ensures ok ==>
                && disk == Some(state)
                && (state.status == ReadyToPublish <==> AllComplete(plan, state.stages))
    {
      hide Run;
      ok := AwaitPersist();
      if !ok {
        return;
      }
      var i, stopped := 0, false;
      while i < |plan.stages| && !stopped
        invariant 0 <= i <= |plan.stages|
        invariant Valid() && Settled() && faults.hit == old(faults.hit)
        invariant stopped ==> i < |plan.stages| && Pcs()[i] == Finished && !Done(state.stages, plan.stages[i].name)
        invariant EarlierReturned(i)
        invariant forall j | (if stopped then i + 1 else i) <= j < |plan.stages| :: Pcs()[j] == Idle
        decreases |plan.stages| - i, !stopped
      {
        ghost var before := state.stages;
        var complete;
        ok, complete := ExecuteStage(i);
        if !ok {
          return;
        }
        OthersStillDone(plan, i, before, state.stages);
        if complete {
          i := i + 1;
        } else {
          stopped := true;
        }
      }
      ok := CloseAndPersist(i);
    }

    /** The end of runCoordinator. */
    method CloseAndPersist(ghost reached: nat) returns (ok: bool)
      requires Valid() && Settled() && reached <= |plan.stages| && EarlierReturned(reached)
      requires reached < |plan.stages| ==> Pcs()[reached] == Finished && !Done(state.stages, plan.stages[reached].name)
      modifies `disk, `state, `config, `events, faults
      ensures (old(faults.hit) ==> faults.hit) && (ok ==> faults.hit == old(faults.hit))
      ensures !ok ==> faults.hit || NotBuildable(plan)
      ensures Stands()
      ensures ok ==>
                && disk == Some(state)
                && (state.status == ReadyToPublish <==> AllComplete(plan, state.stages))
    {
      hide Run, Next, AllComplete;
      assert StoppedAt(plan, config.memory.value, reached);
      CloseSteps(plan, settings, config, config.memory.value);
      if AllComplete(plan, state.stages) {
        state := state.(status := ReadyToPublish);
      } else if state.status == RunRunning {
        state := state.(status := WaitingPlatform);
      }
      Follow(Close);
      var bad := faults.Strike();
      if bad {
        return false;
      }
      disk := Some(state);
      Follow(Flush);
      Follow(Return);
      return true;
    }
  }

  /** Some stage demands a run id and its arguments have none. */
  ghost predicate NotBuildable(plan: Plan) {
    exists i :: 0 <= i < |plan.stages| && !ArgsBuild(plan.stages[i])
  }

  /** Only the named stage's entry may differ. */
  ghost predicate SameElsewhere(a: Stages, b: Stages, name: string) {
    forall n | n != name :: (n in a <==> n in b) && (n in a ==> a[n] == b[n])
  }

  lemma SameAgain(a: Stages, name: string)
    ensures SameElsewhere(a, a, name)
  {
  }

  /** An attempt touches its own entry when it begins and when it ends. */
  lemma SameChain(a: Stages, b: Stages, c: Stages, d: Stages, name: string)
    requires SameElsewhere(a, b, name) && SameElsewhere(c, d, name)
    requires c == b || (name in c && c == b[name := c[name]])
    ensures SameElsewhere(a, d, name)
  {
  }

  lemma OthersStillDone(plan: Plan, i: nat, before: Stages, after: Stages)
    requires ValidPlan(plan) && i < |plan.stages| && SameElsewhere(before, after, plan.stages[i].name)
    ensures forall j | 0 <= j < i :: Done(before, plan.stages[j].name) <==> Done(after, plan.stages[j].name)
  {
  }

  lemma {:induction false} RunsJoin(plan: Plan, settings: Settings, a: Config, first: seq<Event>, b: Config,
                                    second: seq<Event>, c: Config)
    requires Run(plan, settings, a, first) == Some(b) && Run(plan, settings, b, second) == Some(c)
    ensures Run(plan, settings, a, first + second) == Some(c)
  {
    hide Next;
    if second == [] {
      assert first + second == first;
    } else {
      var front := second[..|second| - 1];
      assert (first + second)[..|first + second| - 1] == first + front;
      RunsJoin(plan, settings, a, first, b, front, Run(plan, settings, b, front).value);
    }
  }

  lemma StillReachable(plan: Plan, settings: Settings, a: Config, events: seq<Event>, b: Config)
    requires Reachable(plan, settings, a) && Run(plan, settings, a, events) == Some(b)
    ensures Reachable(plan, settings, b)
  {
    hide Run;
    var clock: nat, before: seq<Event> :| Run(plan, settings, Initially(clock), before) == Some(a);
    RunsJoin(plan, settings, Initially(clock), before, a, events, b);
  }

  /**
   runCoordinator for a sequential plan, from a stored state on: a published run is left alone;
   otherwise the stages are executed. Wherever it stops, the state file is one the state machine
   can reach, and a run that ends by itself is stored as ready exactly when it is complete. Only a failing
   write, a killed process or arguments that cannot be built keep it from ending by itself.
   */
  method RunCoordinator(plan: Plan, settings: Settings, faults: Faults, stored: Option<Saved>, clock: nat,
                        ghost origin: Config)
    returns (ok: bool, disk: Option<Saved>, ghost end: Config)
    requires ValidPlan(plan) && !plan.parallel
    requires origin.memory.None? && origin.disk == stored && origin.clock == clock
    modifies faults
    ensures ok ==> faults.hit == old(faults.hit)
    ensures !ok ==> faults.hit || NotBuildable(plan)
    ensures end.disk == disk && (Reachable(plan, settings, origin) ==> Reachable(plan, settings, end))
    ensures ok ==> disk.Some?
    ensures ok && disk.value.status != Published ==>
              (disk.value.status == ReadyToPublish <==> AllComplete(plan, disk.value.stages))
    ensures stored.Some? && stored.value.status == Published && AllComplete(plan, stored.value.stages) ==>
              ok && disk == stored
  {
    hide Run, Reachable;
    if stored.Some? && stored.value.status == Published && AllComplete(plan, stored.value.stages) {
      return true, stored, origin;
    }
    var activation := new Activation(plan, settings, faults, stored, clock, origin);
    ok := activation.RunStages();
    disk, end := activation.disk, activation.config;
    if Reachable(plan, settings, origin) {
      StillReachable(plan, settings, origin, activation.events, end);
    }
  }
}
