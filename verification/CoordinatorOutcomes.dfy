/** What exit codes and summaries lead to: the stored outcome, its evidence over whole runs, and the next launch. */
module CoordinatorOutcomes {
  import opened Common
  import opened StageResult
  import opened CoordinatorPlan
  import opened Coordinator
  import opened CoordinatorRuns

  // ---------- One exit ----------

  /** Exit code 2 fails the run: sales rows that are missing, contradict, or explain nothing. */
  ghost predicate PartialFails(kind: Kind, summary: Summary) {
    && kind == SalesStage
    && (|| !summary.Sales? || !SalesAgree(summary.sales)
        || (!ExplainsPartial(summary.sales) && forall store :: !AsksRetry(kind, summary, store)))
  }

  /** The stage status an exit leads to. */
  ghost function StatusAfter(kind: Kind, exitCode: int, summary: Summary): StageStatus {
    if exitCode == 0 || (exitCode == 2 && PartialCompletes(kind, summary)) then StageComplete
    else if exitCode == 75 then StageWaitingResource
    else if exitCode == 2 && !PartialFails(kind, summary) then StageRetrying
    else StageFailed
  }

  /**
   What the coordinator records when a process exits, and that it hands exactly this to the writer:
   only code 0 or an accepted partial exit completes the stage, a failed stage fails the run and is not tried
   again in this activation, and the other cases pause before the next attempt.
   */
  lemma ExitOutcome(plan: Plan, settings: Settings, c: Config, i: nat, exitCode: int, summary: Summary)
    requires c.memory.Some? && Started(plan, c.memory.value, i) && c.memory.value.pcs[i] == Running
    ensures
      var name, kind, m := plan.stages[i].name, plan.stages[i].kind, c.memory.value;
      var after := Next(plan, settings, c, Exit(i, exitCode, summary));
      && after.Some? && after.value.memory.Some? && after.value.disk == c.disk && after.value.launches == c.launches
      && var m' := after.value.memory.value;
      && name in m'.state.stages && |m'.pcs| == |m.pcs| && m'.pcs[i].SavingResult?
      && m'.queue == m.queue + [m'.state]
      && (forall other | other != name ::
            (other in m'.state.stages <==> other in m.state.stages)
            && (other in m.state.stages ==> m'.state.stages[other] == m.state.stages[other]))
      && var entry := m'.state.stages[name];
      && entry.status == StatusAfter(kind, exitCode, summary) && entry.attempts == Attempts(m.state.stages, name)
      && (entry.needsRecovery <==> exitCode == 2 && kind == Renewal)
      && (entry.status == StageComplete ==> m'.state.status == m.state.status && entry.pendingStores == [])
      && (entry.status == StageFailed ==> m'.state.status == RunFailed && entry.pendingStores == [])
      && (entry.status == StageWaitingResource ==>
            m'.state.status == WaitingResource && entry.pendingStores == Pending(m.state.stages, name))
      && (entry.status == StageRetrying ==>
            m'.state.status == WaitingPlatform
            && (if exists store :: AsksRetry(kind, summary, store) then
                  forall store :: store in entry.pendingStores <==> AsksRetry(kind, summary, store)
                else entry.pendingStores == Pending(m.state.stages, name)))
      && (m'.pcs[i].pause.Some? <==> entry.status == StageRetrying || entry.status == StageWaitingResource)
      && (m'.pcs[i].pause.Some? ==> m'.pcs[i].pause.value == PauseAfter(plan, settings, i, exitCode))
  {
    hide Classify, PartialCompletes, AsksRetry, SalesAgree, ExplainsPartial;
    var kind := plan.stages[i].kind;
    ExitCodesDecide(kind, exitCode, summary);
    RecoveryComesFromRenewal(kind, exitCode, summary);
    if exitCode == 2 {
      PartialExitRetriesExactly(kind, summary);
      NoStores(Classify(kind, 2, summary).retryStores);
    }
    assert c.launches + [] == c.launches;
  }

  /** Milliseconds before the next attempt: a fixed delay, or by cause and task. */
  ghost function PauseAfter(plan: Plan, settings: Settings, i: nat, exitCode: int): nat
    requires i < |plan.stages|
  {
    match settings.retryDelay
    case Some(delay) => delay
    case None =>
      if exitCode == 75 then 15000
      else
        match plan.task
        case DailyOperations => if plan.stages[i].name == "home-history" then 300000 else 20000
        case SupplyDaily => 30000
        case _ => 20000
  }

  /** Within the budget another attempt is recorded before it is launched; after it the stage waits and keeps its stores. */
  lemma BudgetOutcome(plan: Plan, settings: Settings, c: Config, i: nat)
    requires c.memory.Some? && Started(plan, c.memory.value, i) && c.memory.value.pcs[i] == Deciding
    ensures
      var name, m := plan.stages[i].name, c.memory.value;
      var after := Next(plan, settings, c, Check(i));
      && after.Some? && after.value.memory.Some? && after.value.launches == c.launches
      && var m' := after.value.memory.value;
      && m'.queue == m.queue + [m'.state] && |m'.pcs| == |m.pcs|
      && name in m'.state.stages && m'.state.stages[name].pendingStores == Pending(m.state.stages, name)
      && (m'.pcs[i].SavingAttempt? <==> c.clock - m.start < settings.budget)
      && (c.clock - m.start < settings.budget ==>
            m'.state.stages[name].status == StageRunning
            && m'.state.stages[name].attempts == Attempts(m.state.stages, name) + 1)
      && (c.clock - m.start >= settings.budget ==>
            m'.state.stages[name].status == StageWaiting && m'.state.status == WaitingPlatform
            && m'.state.stages[name].attempts == Attempts(m.state.stages, name)
            && m'.pcs[i].SavingResult? && m'.pcs[i].pause.None?)
  {
    assert c.launches + [] == c.launches;
  }

  /** An activation ends ready exactly when every stage is complete, and otherwise says what it waits for or failed at. */
  lemma CloseOutcome(plan: Plan, settings: Settings, c: Config)
    requires Next(plan, settings, c, Close).Some?
    ensures
      var m, m' := c.memory.value, Next(plan, settings, c, Close).value.memory;
      && m'.Some? && m'.value.queue == m.queue + [m'.value.state] && m'.value.state.stages == m.state.stages
      && ((forall stage | stage in plan.stages :: Done(m.state.stages, stage.name)) ==>
            m'.value.state.status == ReadyToPublish)
      && ((exists stage | stage in plan.stages :: !Done(m.state.stages, stage.name)) ==>
            m'.value.state.status == if m.state.status == RunRunning then WaitingPlatform else m.state.status)
  {
    hide Done;
    var stages := c.memory.value.state.stages;
    assert AllComplete(plan, stages) <==> forall stage | stage in plan.stages :: Done(stages, stage.name);
  }

  /** An activation can only end when no stage is deciding, starting, running or pausing. */
  lemma CloseWaitsForStages(plan: Plan, settings: Settings, c: Config, i: nat)
    requires ValidPlan(plan) && Reachable(plan, settings, c) && Next(plan, settings, c, Close).Some?
    requires i < |plan.stages|
    ensures
      var pc := c.memory.value.pcs[i];
      pc != Deciding && !pc.SavingAttempt? && pc != Running && !pc.Sleeping? && (pc.SavingResult? ==> pc.pause.None?)
    ensures plan.parallel ==> c.memory.value.pcs[i] == Finished
  {
    hide Run, LaunchesOk, AttemptsFresh, PublisherOk, QueueOk, SavedOk, Done, Asked;
    ReachableOk(plan, settings, c);
    var m := c.memory.value;
    assert PcOk(plan, History(c.disk, m.queue), m.flushed, m.pcs[i], m.state.stages, i);
    if !plan.parallel {
      var stop :| 0 <= stop <= |plan.stages| && StoppedAt(plan, m, stop);
    }
  }

  // ---------- Evidence over whole runs ----------

  /** `e` completes stage `i`: an accepted exit, or entering a recovery stage nothing asked for. */
  ghost predicate Evidence(plan: Plan, c: Config, i: nat, e: Event)
    requires i < |plan.stages|
  {
    var stage := plan.stages[i];
    || (e.Exit? && e.i == i
        && (e.exitCode == 0 || (e.exitCode == 2 && PartialCompletes(stage.kind, e.summary))))
    || (&& e == Enter(i) && stage.onlyAfterPartial.Some? && c.memory.Some?
        && var stages, on := c.memory.value.state.stages, stage.onlyAfterPartial.value;
        && (on in stages ==> !stages[on].needsRecovery))
  }

  ghost predicate DoneInMemory(m: Memory, name: string) {
    Done(m.state.stages, name) || exists q | q in m.queue :: Done(q.stages, name)
  }

  /** The stage counts as complete on disk, in memory, on its way to disk, or for the publisher. */
  ghost predicate DoneSomewhere(c: Config, name: string) {
    || Done(Stored(c.disk), name) || (c.memory.Some? && DoneInMemory(c.memory.value, name))
    || Done(Stored(c.publisher), name)
  }

  lemma StageEventEvidence(plan: Plan, settings: Settings, c: Config, m: Memory, i: nat, e: Event)
    requires ValidPlan(plan) && i < |plan.stages| && c.memory == Some(m)
    requires StageEvent(plan, settings, m, c.clock, e).Some?
    requires DoneInMemory(StageEvent(plan, settings, m, c.clock, e).value, plan.stages[i].name)
    ensures DoneInMemory(m, plan.stages[i].name) || Evidence(plan, c, i, e)
  {
    hide Classify, PartialCompletes, StageArgs, MayEnter;
    var m' := StageEvent(plan, settings, m, c.clock, e).value;
    assert m'.queue == m.queue || m'.queue == m.queue + [m'.state];
    if e.Exit? {
      ExitCodesDecide(plan.stages[e.i].kind, e.exitCode, e.summary);
    }
  }

  lemma StepEvidence(plan: Plan, settings: Settings, c: Config, i: nat, e: Event)
    requires ValidPlan(plan) && i < |plan.stages| && Next(plan, settings, c, e).Some?
    requires DoneSomewhere(Next(plan, settings, c, e).value, plan.stages[i].name)
    ensures DoneSomewhere(c, plan.stages[i].name) || Evidence(plan, c, i, e)
  {
    hide Evidence, StageEvent, AllReturned, AllComplete, DoneInMemory;
    var name := plan.stages[i].name;
    var c' := Next(plan, settings, c, e).value;
    if c.memory.Some? {
      QueueEvents(plan, c.memory.value, name);
    }
    match e
    case Activate => ActivationAddsNone(plan, c, name);
    case Flush =>
    case Close =>
    case Return =>
    case Crash =>
    case PublishRead =>
    case PublishWrite =>
    case Tick(passed) =>
    case _ =>
      var m' := StageEvent(plan, settings, c.memory.value, c.clock, e).value;
      if DoneInMemory(m', name) {
        StageEventEvidence(plan, settings, c, c.memory.value, i, e);
      }
  }

  lemma QueueEvents(plan: Plan, m: Memory, name: string)
    ensures DoneInMemory(CloseRun(plan, m), name) ==> DoneInMemory(m, name)
    ensures m.queue != [] ==> (Done(m.queue[0].stages, name) ==> DoneInMemory(m, name))
    ensures m.queue != [] ==>
              (DoneInMemory(m.(queue := m.queue[1..], flushed := m.flushed + 1), name) ==> DoneInMemory(m, name))
  {
    hide AllComplete, Done;
    assert CloseRun(plan, m).queue == m.queue + [CloseRun(plan, m).state];
  }

  lemma ActivationAddsNone(plan: Plan, c: Config, name: string)
    requires c.memory.None?
    ensures
      var c' := ActivateRun(plan, c);
      c'.disk == c.disk && c'.publisher == c.publisher
      && (c'.memory.Some? && DoneInMemory(c'.memory.value, name) ==> Done(Stored(c.disk), name))
  {
    hide AllComplete, Done;
  }

  /** Whatever counts as complete was completed by an event of the run. */
  lemma {:induction false} DoneHasEvidence(plan: Plan, settings: Settings, clock: nat, events: seq<Event>, i: nat)
    returns (k: nat)
    requires ValidPlan(plan) && i < |plan.stages| && Run(plan, settings, Initially(clock), events).Some?
    requires DoneSomewhere(Run(plan, settings, Initially(clock), events).value, plan.stages[i].name)
    ensures k < |events|
    ensures
      var before := Run(plan, settings, Initially(clock), events[..k]);
      before.Some? && Evidence(plan, before.value, i, events[k])
  {
    if events == [] {
      assert false;
    } else {
      var n := |events| - 1;
      var before := Run(plan, settings, Initially(clock), events[..n]).value;
      hide Run, Next, Evidence;
      NextOfRun(plan, settings, Initially(clock), events);
      if DoneSomewhere(before, plan.stages[i].name) {
        k := DoneHasEvidence(plan, settings, clock, events[..n], i);
        assert events[..n][..k] == events[..k];
      } else {
        StepEvidence(plan, settings, before, i, events[n]);
        k := n;
      }
    }
  }

  lemma NextOfRun(plan: Plan, settings: Settings, c: Config, events: seq<Event>)
    requires events != [] && Run(plan, settings, c, events).Some?
    ensures
      var n := |events| - 1;
      var before := Run(plan, settings, c, events[..n]);
      before.Some? && Next(plan, settings, before.value, events[n]) == Run(plan, settings, c, events)
  {
  }

  /** A run stored as ready, or as published, has evidence for every stage of its plan. */
  lemma PublicationHasEvidence(plan: Plan, settings: Settings, clock: nat, events: seq<Event>, i: nat)
    returns (k: nat)
    requires ValidPlan(plan) && i < |plan.stages| && Run(plan, settings, Initially(clock), events).Some?
    requires
      var disk := Run(plan, settings, Initially(clock), events).value.disk;
      disk.Some? && (disk.value.status == ReadyToPublish || disk.value.status == Published)
    ensures k < |events|
    ensures
      var before := Run(plan, settings, Initially(clock), events[..k]);
      before.Some? && Evidence(plan, before.value, i, events[k])
  {
    hide Run, Evidence;
    var c := Run(plan, settings, Initially(clock), events).value;
    assert Reachable(plan, settings, c);
    PublicationIsGated(plan, settings, c);
    k := DoneHasEvidence(plan, settings, clock, events, i);
  }

  // ---------- The stores of the next launch ----------

  /** Nothing that would record another outcome for stage `i`, and no end of the activation. */
  predicate Quiet(e: Event, i: nat) {
    !(e.Exit? && e.i == i) && !e.Crash? && !e.Return? && !e.Activate? && !(e.Enter? && e.i == i)
  }

  lemma PendingStep(plan: Plan, settings: Settings, c: Config, i: nat, e: Event)
    requires ValidPlan(plan) && i < |plan.stages| && c.memory.Some? && Quiet(e, i)
    requires Next(plan, settings, c, e).Some?
    ensures
      var name, after := plan.stages[i].name, Next(plan, settings, c, e).value;
      && after.memory.Some?
      && Pending(after.memory.value.state.stages, name) == Pending(c.memory.value.state.stages, name)
      && |c.launches| <= |after.launches| && after.launches[..|c.launches|] == c.launches
      && forall k | |c.launches| <= k < |after.launches| && after.launches[k].index == i ::
           after.launches[k].stores == Pending(c.memory.value.state.stages, name)
  {
    hide Classify, StageArgs, MayEnter, AllReturned, AllComplete;
    assert forall j | 0 <= j < |plan.stages| && j != i :: plan.stages[j].name != plan.stages[i].name;
  }

  /** Until a stage's next outcome its pending stores stay, and launches of it are for exactly them. */
  lemma {:induction false} PendingStays(plan: Plan, settings: Settings, c: Config, i: nat, events: seq<Event>)
    requires ValidPlan(plan) && i < |plan.stages| && c.memory.Some? && Run(plan, settings, c, events).Some?
    requires forall e | e in events :: Quiet(e, i)
    ensures
      var name, after := plan.stages[i].name, Run(plan, settings, c, events).value;
      && after.memory.Some?
      && Pending(after.memory.value.state.stages, name) == Pending(c.memory.value.state.stages, name)
      && |c.launches| <= |after.launches| && after.launches[..|c.launches|] == c.launches
      && forall k | |c.launches| <= k < |after.launches| && after.launches[k].index == i ::
           after.launches[k].stores == Pending(c.memory.value.state.stages, name)
  {
    if events != [] {
      var n := |events| - 1;
      var before := Run(plan, settings, c, events[..n]).value;
      NextOfRun(plan, settings, c, events);
      hide Run, Next;
      PendingStays(plan, settings, c, i, events[..n]);
      PendingStep(plan, settings, before, i, events[n]);
      var after := Run(plan, settings, c, events).value;
      forall k | |c.launches| <= k < |after.launches| && after.launches[k].index == i
        ensures after.launches[k].stores == Pending(c.memory.value.state.stages, plan.stages[i].name)
      {
        if k < |before.launches| {
          assert after.launches[k] == after.launches[..|before.launches|][k];
        }
      }
      assert after.launches[..|c.launches|] == after.launches[..|before.launches|][..|c.launches|];
    }
  }

  /**
   After a partial exit that asks for a retry, every launch of the stage up to its next outcome is
   for exactly the stores the summary asks to retry.
   */
  lemma RetryIsForAskedStores(plan: Plan, settings: Settings, c: Config, i: nat, summary: Summary,
                              events: seq<Event>, after: Config, k: nat, store: string)
    requires ValidPlan(plan) && c.memory.Some? && Started(plan, c.memory.value, i) && c.memory.value.pcs[i] == Running
    requires StatusAfter(plan.stages[i].kind, 2, summary) == StageRetrying
    requires exists s :: AsksRetry(plan.stages[i].kind, summary, s)
    requires
      var exited := Next(plan, settings, c, Exit(i, 2, summary));
      exited.Some? && Run(plan, settings, exited.value, events) == Some(after)
    requires forall e | e in events :: Quiet(e, i)
    requires |c.launches| <= k < |after.launches| && after.launches[k].index == i
    ensures store in after.launches[k].stores <==> AsksRetry(plan.stages[i].kind, summary, store)
  {
    hide Run, Next, StatusAfter, AsksRetry, PauseAfter;
    ExitOutcome(plan, settings, c, i, 2, summary);
    var exited := Next(plan, settings, c, Exit(i, 2, summary)).value;
    PendingStays(plan, settings, exited, i, events);
  }
}
