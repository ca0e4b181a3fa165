/** Runs that exist: a stage whose gates are open can be launched, and one whose completion was lost is run again. */
module CoordinatorLimits {
  import opened Common
  import opened StageResult
  import opened CoordinatorPlan
  import opened Coordinator
  import opened CoordinatorRuns

  // ---------- Runs in a row ----------

  lemma {:induction false} RunsInARow(plan: Plan, settings: Settings, c: Config, a: seq<Event>, b: seq<Event>)
    requires Run(plan, settings, c, a).Some?
    ensures Run(plan, settings, c, a + b) == Run(plan, settings, Run(plan, settings, c, a).value, b)
  {
    hide Next;
    if b == [] {
      assert a + b == a;
    } else {
      RunsInARow(plan, settings, c, a, b[..|b| - 1]);
      assert (a + b)[..|a + b| - 1] == a + b[..|b| - 1];
    }
  }

  lemma RunOne(plan: Plan, settings: Settings, c: Config, e: Event)
    ensures Run(plan, settings, c, [e]) == Next(plan, settings, c, e)
  {
    assert [e][..0] == [];
  }

  // ---------- From rest to a launch ----------

  /** An activation in which the first `j` stages, complete on disk, have returned. */
  function Opened(plan: Plan, c: Config, j: nat): Config {
    var state := Saved(RunRunning, Stored(c.disk));
    c.(disk := Some(state), activations := c.activations + 1,
       memory := Some(Memory(state, [], 1, seq(|plan.stages|, k => if k < j then Finished else Idle),
                             seq(|plan.stages|, k => 0), c.clock, None)))
  }

  lemma Opening(plan: Plan, settings: Settings, c: Config, i: nat)
    requires c.memory.None? && i < |plan.stages| && !Done(Stored(c.disk), plan.stages[i].name)
    ensures Run(plan, settings, c, [Activate, Flush]) == Some(Opened(plan, c, 0))
  {
    hide Run, Done;
    var c1 := ActivateRun(plan, c);
    var m := c1.memory.value;
    assert m.queue[1..] == [];
    assert m.pcs == seq(|plan.stages|, k => if k < 0 then Finished else Idle);
    RunOne(plan, settings, c, Activate);
    RunOne(plan, settings, c1, Flush);
    RunsInARow(plan, settings, c, [Activate], [Flush]);
    assert [Activate] + [Flush] == [Activate, Flush];
  }

  function Enters(j: nat): seq<Event> {
    if j == 0 then [] else Enters(j - 1) + [Enter(j - 1)]
  }

  /** Entering a stage that is complete returns at once. */
  lemma EnterNext(plan: Plan, settings: Settings, c: Config, k: nat)
    requires !plan.parallel && k < |plan.stages| && EarlierDone(plan, Stored(c.disk), k + 1)
    ensures Next(plan, settings, Opened(plan, c, k), Enter(k)) == Some(Opened(plan, c, k + 1))
  {
    hide Done, Stored;
    var before, after := Opened(plan, c, k), Opened(plan, c, k + 1);
    var m := before.memory.value;
    assert Done(m.state.stages, plan.stages[k].name);
    assert m.pcs[k := Finished] == after.memory.value.pcs;
    assert MayEnter(plan, m, k);
    assert EnterStage(plan, m, k) == after.memory.value;
    assert c.launches + [] == c.launches;
  }

  lemma {:induction false} Entering(plan: Plan, settings: Settings, c: Config, j: nat)
    requires !plan.parallel && j <= |plan.stages| && EarlierDone(plan, Stored(c.disk), j)
    ensures Run(plan, settings, Opened(plan, c, 0), Enters(j)) == Some(Opened(plan, c, j))
  {
    hide Run, Next, Opened;
    if j == 0 {
      NoEvents(plan, settings, Opened(plan, c, 0));
    } else {
      var k := j - 1;
      Entering(plan, settings, c, k);
      EnterNext(plan, settings, c, k);
      RunOne(plan, settings, Opened(plan, c, k), Enter(k));
      RunsInARow(plan, settings, Opened(plan, c, 0), Enters(k), [Enter(k)]);
    }
  }

  /** The configuration after the stage at rest in `c` was entered, checked, stored and started. */
  function LaunchedFrom(plan: Plan, c: Config, i: nat): Config
    requires c.memory.Some? && i < |plan.stages| && |c.memory.value.pcs| == |plan.stages| == |c.memory.value.checks|
  {
    var name, m := plan.stages[i].name, c.memory.value;
    var entry := Entry(StageRunning, Attempts(m.state.stages, name) + 1, Pending(m.state.stages, name), false);
    var state := Saved(m.state.status, m.state.stages[name := entry]);
    c.(disk := Some(state),
       memory := Some(m.(state := state, flushed := m.flushed + 1, pcs := m.pcs[i := Running],
                         checks := m.checks[i := m.checks[i] + 1])),
       launches := c.launches + [Launch(i, entry.attempts, entry.pendingStores, c.activations, state.stages)])
  }

  lemma EnterAndCheck(plan: Plan, settings: Settings, c: Config, i: nat)
    requires c.memory.Some? && Started(plan, c.memory.value, i) && MayEnter(plan, c.memory.value, i)
    requires
      var m := c.memory.value;
      && m.queue == [] && m.pcs[i] == Idle && m.start == c.clock && 0 < settings.budget
      && !Done(m.state.stages, plan.stages[i].name) && Asked(plan, m.state.stages, i)
    ensures
      var m, after := c.memory.value, LaunchedFrom(plan, c, i);
      var state := after.disk.value;
      Run(plan, settings, c, [Enter(i), Check(i)]) ==
      Some(c.(memory := Some(m.(state := state, queue := [state], pcs := m.pcs[i := SavingAttempt(m.flushed + 1)],
                                checks := after.memory.value.checks))))
  {
    hide Run, StageArgs, MayEnter;
    var m := c.memory.value;
    var m1 := At(m, i, Deciding);
    assert EnterStage(plan, m, i) == m1;
    var c1 := c.(memory := Some(m1));
    assert c.launches + [] == c.launches;
    RunOne(plan, settings, c, Enter(i));
    assert Next(plan, settings, c, Enter(i)) == Some(c1);
    CheckFirst(plan, settings, c1, m, i);
    RunOne(plan, settings, c1, Check(i));
    RunsInARow(plan, settings, c, [Enter(i)], [Check(i)]);
    assert [Enter(i)] + [Check(i)] == [Enter(i), Check(i)];
  }

  lemma CheckFirst(plan: Plan, settings: Settings, c: Config, m: Memory, i: nat)
    requires Started(plan, m, i) && m.queue == [] && m.start == c.clock && 0 < settings.budget
    requires c.memory == Some(At(m, i, Deciding))
    ensures
      var after := LaunchedFrom(plan, c, i);
      var state := after.disk.value;
      Next(plan, settings, c, Check(i)) ==
      Some(c.(memory := Some(m.(state := state, queue := [state], pcs := m.pcs[i := SavingAttempt(m.flushed + 1)],
                                checks := after.memory.value.checks))))
  {
    var m1, after := c.memory.value, LaunchedFrom(plan, c, i);
    var state := after.disk.value;
    assert m1.queue + [state] == [state];
    assert m1.pcs[i := SavingAttempt(m.flushed + 1)] == m.pcs[i := SavingAttempt(m.flushed + 1)];
    assert c.launches + [] == c.launches;
  }

  lemma FlushAndStart(plan: Plan, settings: Settings, c: Config, m: Memory, i: nat)
    requires c.memory == Some(m) && Started(plan, m, i) && m.queue == [m.state]
    requires m.pcs[i] == SavingAttempt(m.flushed + 1) && ArgsBuild(plan.stages[i])
    ensures
      var name := plan.stages[i].name;
      Run(plan, settings, c, [Flush, Start(i)]) ==
      Some(c.(disk := Some(m.state),
              memory := Some(m.(queue := [], flushed := m.flushed + 1, pcs := m.pcs[i := Running])),
              launches := c.launches + [Launch(i, Attempts(m.state.stages, name), Pending(m.state.stages, name),
                                               c.activations, m.state.stages)]))
  {
    hide Run, StageArgs;
    var name := plan.stages[i].name;
    ArgsBuildAlways(plan.stages[i], Pending(m.state.stages, name), Attempts(m.state.stages, name));
    assert m.queue[1..] == [];
    var c1 := c.(disk := Some(m.state), memory := Some(m.(queue := [], flushed := m.flushed + 1)));
    RunOne(plan, settings, c, Flush);
    RunOne(plan, settings, c1, Start(i));
    RunsInARow(plan, settings, c, [Flush], [Start(i)]);
    assert [Flush] + [Start(i)] == [Flush, Start(i)];
  }

  lemma Launching(plan: Plan, settings: Settings, c: Config, i: nat)
    requires c.memory.Some? && Started(plan, c.memory.value, i) && MayEnter(plan, c.memory.value, i)
    requires ArgsBuild(plan.stages[i])
    requires
      var m := c.memory.value;
      && m.queue == [] && m.pcs[i] == Idle && m.start == c.clock && 0 < settings.budget
      && !Done(m.state.stages, plan.stages[i].name) && Asked(plan, m.state.stages, i)
    ensures Run(plan, settings, c, [Enter(i), Check(i), Flush, Start(i)]) == Some(LaunchedFrom(plan, c, i))
  {
    hide Run, StageArgs, MayEnter, ArgsBuild, Asked;
    EnterAndCheck(plan, settings, c, i);
    var c1 := Run(plan, settings, c, [Enter(i), Check(i)]).value;
    var m, m1 := c.memory.value, c1.memory.value;
    FlushAndStart(plan, settings, c1, m1, i);
    assert m1.pcs[i := Running] == m.pcs[i := Running];
    RunsInARow(plan, settings, c, [Enter(i), Check(i)], [Flush, Start(i)]);
    assert [Enter(i), Check(i)] + [Flush, Start(i)] == [Enter(i), Check(i), Flush, Start(i)];
  }

  /** A fresh activation that goes straight to the launch of stage `i`. */
  function LaunchEvents(plan: Plan, i: nat): seq<Event> {
    [Activate, Flush] + Enters(if plan.parallel then 0 else i) + [Enter(i), Check(i), Flush, Start(i)]
  }

  /**
   With no activation running, a stage whose gates are open in the state file can be launched: there
   is a run that launches it once, as its next attempt, and nothing else.
   */
  lemma OpenStageCanLaunch(plan: Plan, settings: Settings, c: Config, i: nat)
    requires c.memory.None? && i < |plan.stages| && 0 < settings.budget && ArgsBuild(plan.stages[i])
    requires
      var stored := Stored(c.disk);
      !Done(stored, plan.stages[i].name) && EarlierDone(plan, stored, i) && Asked(plan, stored, i)
    ensures
      var after := Run(plan, settings, c, LaunchEvents(plan, i));
      var stored, name := Stored(c.disk), plan.stages[i].name;
      && after.Some? && after.value.memory.Some? && |after.value.memory.value.pcs| == |plan.stages|
      && after.value.memory.value.pcs[i] == Running && Started(plan, after.value.memory.value, i)
      && Attempts(Stored(after.value.disk), name) == Attempts(stored, name) + 1
      && after.value.memory.value.state.stages == Stored(after.value.disk)
      && after.value.launches ==
         c.launches + [Launch(i, Attempts(stored, name) + 1, Pending(stored, name), c.activations + 1,
                              Stored(after.value.disk))]
  {
    hide Run, StageArgs, ArgsBuild, Asked, Done;
    var j := if plan.parallel then 0 else i;
    var first, second := [Activate, Flush], Enters(j);
    Opening(plan, settings, c, i);
    if plan.parallel {
      assert second == [];
      NoEvents(plan, settings, Opened(plan, c, 0));
    } else {
      Entering(plan, settings, c, i);
    }
    var begun := Opened(plan, c, j);
    RunsInARow(plan, settings, c, first, second);
    assert Run(plan, settings, c, first + second) == Some(begun);
    Launching(plan, settings, begun, i);
    RunsInARow(plan, settings, c, first + second, [Enter(i), Check(i), Flush, Start(i)]);
  }

  lemma NoEvents(plan: Plan, settings: Settings, c: Config)
    ensures Run(plan, settings, c, []) == Some(c)
  {
  }

  // ---------- Lost completions ----------

  /** Between the exit of a process and the write of its result, a completion is in memory only. */
  lemma CompletionIsFirstUnsaved(plan: Plan, settings: Settings, c: Config, i: nat, exitCode: int, summary: Summary)
    requires ValidPlan(plan) && Reachable(plan, settings, c) && c.memory.Some?
    requires Started(plan, c.memory.value, i) && c.memory.value.pcs[i] == Running
    requires Classify(plan.stages[i].kind, exitCode, summary).complete
    ensures
      var after := Next(plan, settings, c, Exit(i, exitCode, summary));
      && after.Some? && after.value.memory.Some? && after.value.launches == c.launches && after.value.disk == c.disk
      && Done(after.value.memory.value.state.stages, plan.stages[i].name)
      && !Done(Stored(after.value.disk), plan.stages[i].name)
  {
    hide Run, Classify, LaunchesOk, AttemptsFresh, PublisherOk, StagesOk, EarlierDone, Asked, QueueOk, SavedOk;
    ReachableOk(plan, settings, c);
    var m := c.memory.value;
    assert PcOk(plan, History(c.disk, m.queue), m.flushed, m.pcs[i], m.state.stages, i);
    MemoryContinuesDisk(plan, c.disk, m.queue, m.state.stages);
    assert c.launches + [] == c.launches;
  }

  /**
   A completion that crashed before it was stored is not remembered, whatever the plan and the
   history: the stage, launched before, can be launched again, as an attempt after all others.
   */
  lemma UnsavedCompletionIsRerun(plan: Plan, settings: Settings, c: Config, i: nat, l: Launch)
    requires ValidPlan(plan) && Reachable(plan, settings, c) && c.memory.Some? && 0 < settings.budget
    requires i < |plan.stages| && l in c.launches && l.index == i
    requires Done(c.memory.value.state.stages, plan.stages[i].name) && !Done(Stored(c.disk), plan.stages[i].name)
    ensures
      var after := Run(plan, settings, c, [Crash] + LaunchEvents(plan, i));
      && after.Some? && |after.value.launches| == |c.launches| + 1
      && after.value.launches[..|c.launches|] == c.launches
      && after.value.launches[|c.launches|].index == i
      && after.value.launches[|c.launches|].attempt == Attempts(Stored(c.disk), plan.stages[i].name) + 1
      && forall k | k in c.launches && k.index == i :: k.attempt < after.value.launches[|c.launches|].attempt
  {
    hide Run, StageArgs, MemoryOk, AttemptsFresh, PublisherOk;
    ReachableOk(plan, settings, c);
    GatesStayOpen(plan, settings, c, i, l);
    var crashed := c.(memory := None);
    RunOne(plan, settings, c, Crash);
    OpenStageCanLaunch(plan, settings, crashed, i);
    RunsInARow(plan, settings, c, [Crash], LaunchEvents(plan, i));
    forall k | k in c.launches && k.index == i ensures k.attempt <= Attempts(Stored(c.disk), plan.stages[i].name) {
      assert LaunchOk(plan, k, Stored(c.disk));
    }
  }

  /** A stage launched before and not stored as complete still has its gates open in the state file. */
  lemma GatesStayOpen(plan: Plan, settings: Settings, c: Config, i: nat, l: Launch)
    requires Inv(plan, c) && i < |plan.stages| && l in c.launches && l.index == i
    requires !Done(Stored(c.disk), plan.stages[i].name)
    ensures ArgsBuild(plan.stages[i])
    ensures EarlierDone(plan, Stored(c.disk), i) && Asked(plan, Stored(c.disk), i)
  {
    hide StageArgs, MemoryOk, AttemptsFresh, PublisherOk, EarlierDone, Asked, Done;
    assert LaunchOk(plan, l, Stored(c.disk));
    ArgsBuildAlways(plan.stages[i], l.stores, l.attempt);
    StoredOk(plan, c);
    assert plan.stages[i].name in Stored(c.disk);
  }

  /**
   So it happens in every plan whose first stage can be launched: that stage runs to completion,
   the activation crashes, and the stage runs again.
   */
  lemma FirstStageRunsTwice(plan: Plan, settings: Settings, clock: nat, exitCode: int, summary: Summary)
    requires ValidPlan(plan) && plan.stages != [] && 0 < settings.budget && ArgsBuild(plan.stages[0])
    requires Classify(plan.stages[0].kind, exitCode, summary).complete
    ensures
      var events := LaunchEvents(plan, 0) + [Exit(0, exitCode, summary)];
      var done := Run(plan, settings, Initially(clock), events);
      var again := Run(plan, settings, Initially(clock), events + ([Crash] + LaunchEvents(plan, 0)));
      && done.Some? && done.value.memory.Some? && Done(done.value.memory.value.state.stages, plan.stages[0].name)
      && again.Some? && |again.value.launches| == 2
      && again.value.launches[0].index == 0 && again.value.launches[0].attempt == 1
      && again.value.launches[1].index == 0 && again.value.launches[1].attempt == 2
  {
    hide Run, StageArgs, ArgsBuild, Classify, Next;
    var c0 := Initially(clock);
    assert plan.stages[0].onlyAfterPartial.None?;
    OpenStageCanLaunch(plan, settings, c0, 0);
    var launched := Run(plan, settings, c0, LaunchEvents(plan, 0)).value;
    assert Reachable(plan, settings, launched);
    CompletionIsFirstUnsaved(plan, settings, launched, 0, exitCode, summary);
    var exited := Next(plan, settings, launched, Exit(0, exitCode, summary)).value;
    RunOne(plan, settings, launched, Exit(0, exitCode, summary));
    RunsInARow(plan, settings, c0, LaunchEvents(plan, 0), [Exit(0, exitCode, summary)]);
    var events := LaunchEvents(plan, 0) + [Exit(0, exitCode, summary)];
    assert Reachable(plan, settings, exited);
    UnsavedCompletionIsRerun(plan, settings, exited, 0, exited.launches[0]);
    RunsInARow(plan, settings, c0, events, [Crash] + LaunchEvents(plan, 0));
    var again := Run(plan, settings, exited, [Crash] + LaunchEvents(plan, 0)).value;
    assert again.launches[..1][0] == exited.launches[0];
  }
}
