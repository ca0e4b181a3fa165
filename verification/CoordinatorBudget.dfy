/** How often one activation may launch a stage before its time budget is spent. */
module CoordinatorBudget {
  import opened Common
  import opened StageResult
  import opened CoordinatorPlan
  import opened Coordinator
  import opened CoordinatorRuns

  /** The launches of stage `i` in one activation. */
  function Count(launches: seq<Launch>, activation: nat, i: nat): nat {
    if launches == [] then 0
    else
      var last := launches[|launches| - 1];
      Count(launches[..|launches| - 1], activation, i) + if last.activation == activation && last.index == i then 1 else 0
  }

  lemma CountAppends(launches: seq<Launch>, l: Launch, activation: nat, i: nat)
    ensures Count(launches + [l], activation, i) ==
            Count(launches, activation, i) + if l.activation == activation && l.index == i then 1 else 0
  {
    assert (launches + [l])[..|launches|] == launches;
  }

  /** `n` attempts with a pause after each but the last fit into the budget. */
  predicate Affordable(settings: Settings, n: nat) {
    n == 0 || (n - 1) * MinPause(settings) < settings.budget
  }

  lemma FewerAffordable(settings: Settings, n: nat, k: nat)
    requires n <= k && Affordable(settings, k)
    ensures Affordable(settings, n)
  {
    if 0 < n {
      assert (n - 1) * MinPause(settings) <= (k - 1) * MinPause(settings);
    }
  }

  /** Where a stage stands in time: `k` attempts begun since `start`, `launched` of them launched. */
  ghost predicate InTime(settings: Settings, start: nat, clock: nat, pc: Pc, k: nat, launched: nat) {
    var spent := k * MinPause(settings);
    && start <= clock && launched <= k && Affordable(settings, k)
    && (k > 0 ==> start + spent - MinPause(settings) <= clock)
    && (pc == Idle ==> k == 0)
    && (pc.SavingAttempt? ==> launched < k)
    && (pc.Running? ==> k > 0)
    && (pc.Deciding? ==> start + spent <= clock)
    && (pc.Sleeping? ==> start + spent <= pc.wake)
    && (pc.SavingResult? && pc.pause.Some? ==> k > 0 && pc.pause.value >= MinPause(settings))
  }

  ghost predicate Timely(plan: Plan, settings: Settings, c: Config, m: Memory, launches: seq<Launch>) {
    && |m.pcs| == |m.checks| == |plan.stages|
    && forall i | 0 <= i < |m.pcs| ::
         InTime(settings, m.start, c.clock, m.pcs[i], m.checks[i], Count(launches, c.activations, i))
  }

  ghost predicate Budgeted(plan: Plan, settings: Settings, c: Config) {
    && (forall activation, i :: Affordable(settings, Count(c.launches, activation, i)))
    && (forall l | l in c.launches :: l.activation <= c.activations)
    && (c.memory.Some? ==> Timely(plan, settings, c, c.memory.value, c.launches))
  }

  lemma {:induction false} NoneYet(launches: seq<Launch>, activation: nat, i: nat)
    requires forall l | l in launches :: l.activation != activation
    ensures Count(launches, activation, i) == 0
  {
    if launches != [] {
      assert launches[|launches| - 1] in launches;
      NoneYet(launches[..|launches| - 1], activation, i);
    }
  }

  /** One event of stage `i`, seen in time. */
  lemma StageInTime(plan: Plan, settings: Settings, m: Memory, clock: nat, e: Event, i: nat, launched: nat)
    requires StageEvent(plan, settings, m, clock, e).Some? && |m.pcs| == |m.checks| == |plan.stages| && i < |m.pcs|
    requires InTime(settings, m.start, clock, m.pcs[i], m.checks[i], launched)
    ensures
      var m' := StageEvent(plan, settings, m, clock, e).value;
      && |m'.pcs| == |m'.checks| == |plan.stages| && m'.start == m.start
      && InTime(settings, m.start, clock, m'.pcs[i], m'.checks[i],
                launched + if e == Start(i) && m'.pcs[i] == Running then 1 else 0)
  {
    hide StageEvent, InTime;
    EventShape(plan, settings, m, clock, e);
    if e.i == i {
      OwnInTime(plan, settings, m, clock, e, launched);
    } else {
      OthersStay(plan, settings, m, clock, e, i);
    }
  }

  lemma OthersStay(plan: Plan, settings: Settings, m: Memory, clock: nat, e: Event, j: nat)
    requires StageEvent(plan, settings, m, clock, e).Some? && OfStage(e) && e.i != j && j < |m.pcs| == |m.checks|
    requires |m.pcs| == |plan.stages|
    ensures
      var m' := StageEvent(plan, settings, m, clock, e).value;
      && |m'.pcs| == |m'.checks| == |m.pcs| && m'.start == m.start
      && m'.pcs[j] == m.pcs[j] && m'.checks[j] == m.checks[j]
  {
    hide Classify, StageArgs, MayEnter;
  }

  lemma OwnInTime(plan: Plan, settings: Settings, m: Memory, clock: nat, e: Event, launched: nat)
    requires StageEvent(plan, settings, m, clock, e).Some? && OfStage(e) && |m.pcs| == |m.checks| == |plan.stages|
    requires e.i < |m.pcs| && InTime(settings, m.start, clock, m.pcs[e.i], m.checks[e.i], launched)
    ensures
      var m' := StageEvent(plan, settings, m, clock, e).value;
      && |m'.pcs| == |m'.checks| == |plan.stages| && m'.start == m.start
      && InTime(settings, m.start, clock, m'.pcs[e.i], m'.checks[e.i],
                launched + if e.Start? && m'.pcs[e.i] == Running then 1 else 0)
  {
    hide Classify, StageArgs, MayEnter;
    if e.Check? {
      var k := m.checks[e.i];
      assert (k + 1) * MinPause(settings) == k * MinPause(settings) + MinPause(settings);
    }
  }

  lemma StageBudgeted(plan: Plan, settings: Settings, c: Config, m: Memory, e: Event)
    requires Budgeted(plan, settings, c) && c.memory == Some(m) && OfStage(e)
    requires StageEvent(plan, settings, m, c.clock, e).Some?
    ensures
      var m' := StageEvent(plan, settings, m, c.clock, e).value;
      Budgeted(plan, settings, c.(memory := Some(m'), launches := c.launches + Launched(plan, c, m, m', e)))
  {
    hide StageEvent, InTime, Affordable;
    var m' := StageEvent(plan, settings, m, c.clock, e).value;
    var more := Launched(plan, c, m, m', e);
    var all := c.launches + more;
    if more == [] {
      assert all == c.launches;
    }
    forall activation, i
      ensures Count(all, activation, i) ==
              Count(c.launches, activation, i)
              + if more != [] && activation == c.activations && i == e.i then 1 else 0
    {
      if more != [] {
        CountAppends(c.launches, more[0], activation, i);
      }
    }
    EventShape(plan, settings, m, c.clock, e);
    forall i | 0 <= i < |m'.pcs|
      ensures InTime(settings, m'.start, c.clock, m'.pcs[i], m'.checks[i], Count(all, c.activations, i))
    {
      StageInTime(plan, settings, m, c.clock, e, i, Count(c.launches, c.activations, i));
    }
    if more != [] {
      InTimeAffordable(settings, m'.start, c.clock, m'.pcs[e.i], m'.checks[e.i], Count(all, c.activations, e.i));
    }
  }

  lemma EventShape(plan: Plan, settings: Settings, m: Memory, clock: nat, e: Event)
    requires StageEvent(plan, settings, m, clock, e).Some?
    ensures |StageEvent(plan, settings, m, clock, e).value.pcs| == |StageEvent(plan, settings, m, clock, e).value.checks|
            == |plan.stages| == |m.pcs|
    ensures OfStage(e) && e.i < |plan.stages|
  {
    hide Classify, StageArgs, MayEnter;
  }

  lemma InTimeAffordable(settings: Settings, start: nat, clock: nat, pc: Pc, k: nat, launched: nat)
    requires InTime(settings, start, clock, pc, k, launched)
    ensures Affordable(settings, launched)
  {
    FewerAffordable(settings, launched, k);
  }

  lemma StepBudgeted(plan: Plan, settings: Settings, c: Config, e: Event)
    requires Budgeted(plan, settings, c) && Next(plan, settings, c, e).Some?
    ensures Budgeted(plan, settings, Next(plan, settings, c, e).value)
  {
    hide StageEvent, Launched, Affordable, AllReturned, ActivateRun, AllComplete, Timely;
    if e == Activate {
      ActivateBudgeted(plan, settings, c);
    } else if OfStage(e) {
      StageBudgeted(plan, settings, c, c.memory.value, e);
    } else {
      WaitBudgeted(plan, settings, c, Next(plan, settings, c, e).value);
    }
  }

  lemma ActivateBudgeted(plan: Plan, settings: Settings, c: Config)
    requires Budgeted(plan, settings, c) && c.memory.None?
    ensures Budgeted(plan, settings, ActivateRun(plan, c))
  {
    hide AllComplete;
    var activation := c.activations + 1;
    forall i ensures Count(c.launches, activation, i) == 0 {
      NoneYet(c.launches, activation, i);
    }
  }

  /** Writing, closing, publishing and waiting move no stage. */
  lemma WaitBudgeted(plan: Plan, settings: Settings, c: Config, c': Config)
    requires Budgeted(plan, settings, c)
    requires c'.launches == c.launches && c'.activations == c.activations && c.clock <= c'.clock
    requires c'.memory.Some? ==>
               && c.memory.Some? && c'.memory.value.pcs == c.memory.value.pcs
               && c'.memory.value.checks == c.memory.value.checks && c'.memory.value.start == c.memory.value.start
    ensures Budgeted(plan, settings, c')
  {
    hide Affordable;
  }

  lemma {:induction false} RunBudgeted(plan: Plan, settings: Settings, c: Config, events: seq<Event>)
    requires Budgeted(plan, settings, c) && Run(plan, settings, c, events).Some?
    ensures Budgeted(plan, settings, Run(plan, settings, c, events).value)
  {
    hide Budgeted, Next;
    if events != [] {
      RunBudgeted(plan, settings, c, events[..|events| - 1]);
      StepBudgeted(plan, settings, Run(plan, settings, c, events[..|events| - 1]).value, events[|events| - 1]);
    }
  }

  /**
   One activation launches a stage at most ceil(budget / pause) times, the pause being the shortest
   the settings allow: each sleep advances the clock by at least that much.
   */
  lemma LaunchesFitTheBudget(plan: Plan, settings: Settings, c: Config, activation: nat, i: nat)
    requires Reachable(plan, settings, c)
    ensures
      var n := Count(c.launches, activation, i);
      n == 0 || (n - 1) * MinPause(settings) < settings.budget
  {
    hide Run, Timely;
    var clock: nat, events: seq<Event> :| Run(plan, settings, Initially(clock), events) == Some(c);
    assert forall a, j :: Count([], a, j) == 0;
    RunBudgeted(plan, settings, Initially(clock), events);
  }
}
