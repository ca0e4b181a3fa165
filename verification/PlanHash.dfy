/** The plan hash: what an approved hash commits the operator to. */
module PlanHash {
  import opened Common
  import opened Keys
  import opened Framing
  import opened Tables
  import opened Endpoint
  import opened Snapshot

  const PLAN_VERSION := "shein-fm-fnos-webhook-cutover-v4"

  datatype Step = Step(table: TableName, op: Operation)

  /** Receipts are updated through their two mutable columns only; heartbeats never. */
  predicate StepFits(step: Step) {
    match step.op
    case Insert(row) => HasIdentity(step.table) ==> row.key.gate == ""
    case Update(row) => TouchedOnUpdate(step.table) && (HasIdentity(step.table) ==> row.key.gate == "")
    case UpdateMutable(_, _, _) => step.table == Receipt
  }

  function TableText(name: TableName): string {
    match name
    case Receipt => "receipt"
    case Heartbeat => "heartbeat"
    case Job => "job"
    case Event => "event"
    case Directive => "directive"
    case Subscription => "subscription"
    case Gate => "gate"
  }

  lemma TableTextInjective(a: TableName, b: TableName)
    requires TableText(a) == TableText(b)
    ensures a == b
  {
    assert |TableText(a)| == |TableText(b)| && TableText(a)[0] == TableText(b)[0];
  }

  /** The columns of an operation's row that enter the plan hash. */
  function OperationText(op: Operation): string {
    match op
    case Insert(row) => RowText(row)
    case Update(row) => RowText(row)
    case UpdateMutable(k, count, at) => Frames([KeyText(k), IntText(count), OptionText(at)])
  }

  function OperationKey(op: Operation): Key {
    match op
    case Insert(row) => row.key
    case Update(row) => row.key
    case UpdateMutable(k, _, _) => k
  }

  /** The frame PlanAccumulator.add absorbs. */
  function StepText(step: Step): string {
    Frames([TableText(step.table), if step.op.Insert? then "insert" else "update",
            KeyText(OperationKey(step.op)), Sha256(OperationText(step.op))])
  }

  lemma StepTextInjective(a: Step, b: Step)
    requires StepFits(a) && StepFits(b) && StepText(a) == StepText(b)
    ensures a == b
  {
    hide Frames, KeyText, RowText, IntText, OptionText, TableText;
    var insert, update := "insert", "update";
    var fa := [TableText(a.table), if a.op.Insert? then insert else update,
               KeyText(OperationKey(a.op)), Sha256(OperationText(a.op))];
    var fb := [TableText(b.table), if b.op.Insert? then insert else update,
               KeyText(OperationKey(b.op)), Sha256(OperationText(b.op))];
    FramesInjective(fa, fb);
    assert fa[0] == fb[0] && fa[1] == fb[1] && fa[3] == fb[3];
    TableTextInjective(a.table, b.table);
    assert insert[0] != update[0];
    OperationTextInjective(a.op, b.op);
  }

  lemma OperationTextInjective(a: Operation, b: Operation)
    requires OperationText(a) == OperationText(b)
    requires a.Insert? == b.Insert? && a.Update? == b.Update?
    ensures a == b
  {
    hide Frames, KeyText, RowText, IntText, OptionText;
    if a.UpdateMutable? {
      var fa := [KeyText(a.key), IntText(a.count), OptionText(a.at)];
      var fb := [KeyText(b.key), IntText(b.count), OptionText(b.at)];
      FramesInjective(fa, fb);
      assert fa[0] == fb[0] && fa[1] == fb[1] && fa[2] == fb[2];
      KeyTextInjective(a.key, b.key);
      IntTextInjective(a.count, b.count);
      OptionTextInjective(a.at, b.at);
    } else {
      RowTextInjective(a.row, b.row);
    }
  }

  function StepTexts(steps: seq<Step>): seq<string> {
    seq(|steps|, i requires 0 <= i < |steps| => StepText(steps[i]))
  }

  function HashOf(header: string, steps: seq<Step>): Hash {
    Sha256(Frames([header] + StepTexts(steps)))
  }

  /** Equal plan hashes mean the same header and the same operations in the same order. */
  lemma PlanHashBindsOperations(header: string, steps: seq<Step>, header': string, steps': seq<Step>)
    requires forall step | step in steps || step in steps' :: StepFits(step)
    requires HashOf(header, steps) == HashOf(header', steps')
    ensures header == header' && steps == steps'
  {
    hide Frames, StepText;
    var a, b := [header] + StepTexts(steps), [header'] + StepTexts(steps');
    FramesInjective(a, b);
    assert a[0] == b[0] && |steps| == |steps'|;
    forall i | 0 <= i < |steps| ensures steps[i] == steps'[i] {
      assert a[i + 1] == b[i + 1];
      StepTextInjective(steps[i], steps'[i]);
    }
  }

  // ---------- The header ----------

  function DigestText(d: TableDigest): string {
    Frames([IntText(d.rowCount), d.fullDigest, d.keyDigest,
            OptionText(if d.maxId.Some? then Some(IntText(d.maxId.value)) else None), OptionText(d.immutableDigest)])
  }

  lemma DigestTextInjective(a: TableDigest, b: TableDigest)
    requires DigestText(a) == DigestText(b)
    ensures a == b
  {
    hide Frames, IntText, OptionText;
    var ma := if a.maxId.Some? then Some(IntText(a.maxId.value)) else None;
    var mb := if b.maxId.Some? then Some(IntText(b.maxId.value)) else None;
    var fa := [IntText(a.rowCount), a.fullDigest, a.keyDigest, OptionText(ma), OptionText(a.immutableDigest)];
    var fb := [IntText(b.rowCount), b.fullDigest, b.keyDigest, OptionText(mb), OptionText(b.immutableDigest)];
    FramesInjective(fa, fb);
    assert fa[0] == fb[0] && fa[1] == fb[1] && fa[2] == fb[2] && fa[3] == fb[3] && fa[4] == fb[4];
    IntTextInjective(a.rowCount, b.rowCount);
    OptionTextInjective(ma, mb);
    OptionTextInjective(a.immutableDigest, b.immutableDigest);
    if a.maxId.Some? {
      IntTextInjective(a.maxId.value, b.maxId.value);
    }
  }

  function DigestTexts(tables: map<TableName, TableDigest>): seq<string>
    requires forall name: TableName :: name in tables
  {
    seq(|ALL_TABLES|, i requires 0 <= i < |ALL_TABLES| => DigestText(tables[ALL_TABLES[i]]))
  }

  function SequenceTexts(sequences: map<TableName, int>): seq<string> {
    seq(|ALL_TABLES|, i requires 0 <= i < |ALL_TABLES| =>
      OptionText(if ALL_TABLES[i] in sequences then Some(IntText(sequences[ALL_TABLES[i]])) else None))
  }

  const ALL_TRIGGERS: seq<TriggerName> := [ReceiptImmutable, HeartbeatAppendOnly] + CONTROLLED_TRIGGERS

  function TriggerTexts(triggers: map<TriggerName, bool>): seq<string>
    requires forall trigger: TriggerName :: trigger in triggers
  {
    seq(|ALL_TRIGGERS|, i requires 0 <= i < |ALL_TRIGGERS| => FlagText(triggers[ALL_TRIGGERS[i]]))
  }

  function ReadinessTexts(r: Readiness): seq<string> {
    [IntText(r.unfinishedJobs), IntText(r.unfinishedDirectives), IntText(r.subscriptions), IntText(r.gates)]
  }

  /** snapshotFingerprint: everything in the snapshot but the session. */
  function Fingerprint(s: Snapshot): Hash
    requires forall name: TableName :: name in s.tables
    requires forall trigger: TriggerName :: trigger in s.triggers
  {
    Sha256(Frames([IntText(s.system), Frames(DigestTexts(s.tables)), Frames(SequenceTexts(s.sequences)),
                   Frames(ReadinessTexts(s.readiness)), Frames(TriggerTexts(s.triggers))]))
  }

  lemma DigestTextsInjective(a: map<TableName, TableDigest>, b: map<TableName, TableDigest>)
    requires forall name: TableName :: name in a && name in b
    requires DigestTexts(a) == DigestTexts(b)
    ensures a == b
  {
    hide DigestText;
    forall name: TableName ensures a[name] == b[name] {
      var i := TableIndex(name);
      assert DigestTexts(a)[i] == DigestTexts(b)[i];
      DigestTextInjective(a[name], b[name]);
    }
  }

  lemma SequenceTextsInjective(a: map<TableName, int>, b: map<TableName, int>)
    requires forall name: TableName :: (name in a <==> HasIdentity(name)) && (name in b <==> HasIdentity(name))
    requires SequenceTexts(a) == SequenceTexts(b)
    ensures a == b
  {
    hide IntText, OptionText;
    forall name: TableName | HasIdentity(name) ensures a[name] == b[name] {
      var i := TableIndex(name);
      assert SequenceTexts(a)[i] == SequenceTexts(b)[i];
      OptionTextInjective(Some(IntText(a[name])), Some(IntText(b[name])));
      IntTextInjective(a[name], b[name]);
    }
  }

  lemma TriggerTextsInjective(a: map<TriggerName, bool>, b: map<TriggerName, bool>)
    requires forall trigger: TriggerName :: trigger in a && trigger in b
    requires TriggerTexts(a) == TriggerTexts(b)
    ensures a == b
  {
    var yes, no := "t", "f";
    assert yes[0] != no[0];
    forall trigger: TriggerName ensures a[trigger] == b[trigger] {
      var i := TriggerIndex(trigger);
      assert TriggerTexts(a)[i] == TriggerTexts(b)[i];
      assert FlagText(a[trigger]) == FlagText(b[trigger]);
    }
  }

  lemma TriggerIndex(trigger: TriggerName) returns (i: nat)
    ensures i < |ALL_TRIGGERS| && ALL_TRIGGERS[i] == trigger
  {
    if Controlled(trigger) {
      ControlledAreListed(trigger);
      var j :| 0 <= j < |CONTROLLED_TRIGGERS| && CONTROLLED_TRIGGERS[j] == trigger;
      i := j + 2;
    } else {
      i := if trigger == ReceiptImmutable then 0 else 1;
    }
  }

  /** Equal fingerprints mean the same system holding the same database. */
  lemma FingerprintBindsDatabase(s: int, a: Session, db: Database, s': int, b: Session, db': Database)
    requires ValidDatabase(db) && ValidDatabase(db')
    requires Fingerprint(SnapshotOf(s, a, db)) == Fingerprint(SnapshotOf(s', b, db'))
    ensures s == s' && db == db'
  {
    hide Frames, IntText, DigestTexts, SequenceTexts, ReadinessTexts, TriggerTexts, ReadinessOf, DigestOf, ValidTable;
    var x, y := SnapshotOf(s, a, db), SnapshotOf(s', b, db');
    var fx := [IntText(s), Frames(DigestTexts(x.tables)), Frames(SequenceTexts(x.sequences)),
               Frames(ReadinessTexts(x.readiness)), Frames(TriggerTexts(x.triggers))];
    var fy := [IntText(s'), Frames(DigestTexts(y.tables)), Frames(SequenceTexts(y.sequences)),
               Frames(ReadinessTexts(y.readiness)), Frames(TriggerTexts(y.triggers))];
    FramesInjective(fx, fy);
    assert fx[0] == fy[0] && fx[1] == fy[1] && fx[2] == fy[2] && fx[4] == fy[4];
    IntTextInjective(s, s');
    FramesInjective(DigestTexts(x.tables), DigestTexts(y.tables));
    FramesInjective(SequenceTexts(x.sequences), SequenceTexts(y.sequences));
    FramesInjective(TriggerTexts(x.triggers), TriggerTexts(y.triggers));
    DigestTextsInjective(x.tables, y.tables);
    SequenceTextsInjective(x.sequences, y.sequences);
    TriggerTextsInjective(x.triggers, y.triggers);
    DigestsDetermineTables(db.tables, db'.tables);
  }

  /** The first frame of a plan hash. */
  function HeaderText(mode: string, baseline: Option<Hash>, source: Hash, target: Hash, targetState: string)
    : string
  {
    Frames([PLAN_VERSION, mode, OptionText(baseline), source, target, targetState])
  }

  lemma HeaderTextInjective(mode: string, baseline: Option<Hash>, source: Hash, target: Hash, state: string,
                            mode': string, baseline': Option<Hash>, source': Hash, target': Hash, state': string)
    requires HeaderText(mode, baseline, source, target, state) == HeaderText(mode', baseline', source', target', state')
    ensures mode == mode' && baseline == baseline' && source == source' && target == target' && state == state'
  {
    hide Frames, OptionText;
    var fa := [PLAN_VERSION, mode, OptionText(baseline), source, target, state];
    var fb := [PLAN_VERSION, mode', OptionText(baseline'), source', target', state'];
    FramesInjective(fa, fb);
    assert fa[1] == fb[1] && fa[2] == fb[2] && fa[3] == fb[3] && fa[4] == fb[4] && fa[5] == fb[5];
    OptionTextInjective(baseline, baseline');
  }

  // ---------- The accumulator ----------

  function CountOf(steps: seq<Step>, name: TableName, inserts: bool): nat {
    if steps == [] then 0
    else
      var last := steps[|steps| - 1];
      CountOf(steps[..|steps| - 1], name, inserts)
      + if last.table == name && last.op.Insert? == inserts then 1 else 0
  }

  datatype Counts = Counts(inserted: map<TableName, nat>, updated: map<TableName, nat>)

  datatype Plan = Plan(planHash: Hash, counts: Counts)

  ghost predicate CountsAre(counts: Counts, steps: seq<Step>) {
    forall name: TableName ::
      && name in counts.inserted && counts.inserted[name] == CountOf(steps, name, true)
      && name in counts.updated && counts.updated[name] == CountOf(steps, name, false)
  }

  ghost predicate IsPlan(plan: Plan, header: string, steps: seq<Step>) {
    plan.planHash == HashOf(header, steps) && CountsAre(plan.counts, steps)
  }

  class PlanAccumulator {
    var stream: string
    var counts: Counts
    ghost const header: string
    ghost var steps: seq<Step>

    ghost predicate Valid()
      reads this
    {
      stream == Frames([header] + StepTexts(steps)) && CountsAre(counts, steps)
    }

    constructor (header: string)
      ensures Valid() && this.header == header && steps == []
    {
      this.header := header;
      stream := Frame(header);
      counts := Counts(NO_COUNTS, NO_COUNTS);
      steps := [];
      new;
      StartStream(header);
      NoCounts();
    }

    method Add(name: TableName, op: Operation)
      requires Valid()
      modifies this
      ensures Valid() && steps == old(steps) + [Step(name, op)]
    {
      hide Frames, StepText, Frame;
      StreamStep(header, steps, Step(name, op));
      stream := stream + Frame(StepText(Step(name, op)));
      if op.Insert? {
        counts := counts.(inserted := counts.inserted[name := counts.inserted[name] + 1]);
      } else {
        counts := counts.(updated := counts.updated[name := counts.updated[name] + 1]);
      }
      steps := steps + [Step(name, op)];
    }

    method Finish() returns (plan: Plan)
      requires Valid()
      ensures IsPlan(plan, header, steps)
    {
      plan := Plan(Sha256(stream), counts);
    }
  }

  const NO_COUNTS: map<TableName, nat> :=
    map[Receipt := 0, Heartbeat := 0, Job := 0, Event := 0, Directive := 0, Subscription := 0, Gate := 0]

  lemma NoCounts()
    ensures forall name: TableName :: name in NO_COUNTS && NO_COUNTS[name] == 0
  {
    forall name: TableName ensures name in NO_COUNTS && NO_COUNTS[name] == 0 {
      match name
      case Receipt | Heartbeat | Job | Event | Directive | Subscription | Gate =>
    }
  }

  lemma StartStream(header: string)
    ensures Frames([header] + StepTexts([])) == Frame(header)
  {
    assert [header] + StepTexts([]) == [header];
    assert Frames([header]) == Frame(header) + Frames([]);
  }

  lemma StreamStep(header: string, steps: seq<Step>, step: Step)
    ensures Frames([header] + StepTexts(steps + [step])) == Frames([header] + StepTexts(steps)) + Frame(StepText(step))
    ensures forall name, inserts ::
              CountOf(steps + [step], name, inserts) ==
              CountOf(steps, name, inserts) + if step.table == name && step.op.Insert? == inserts then 1 else 0
  {
    hide Frames, StepText, Frame;
    assert [header] + StepTexts(steps + [step]) == ([header] + StepTexts(steps)) + [StepText(step)];
    FramesAppend([header] + StepTexts(steps), StepText(step));
    assert (steps + [step])[..|steps + [step]| - 1] == steps;
  }

  /** assertPlanMatches. */
  function PlanMatches(a: Plan, b: Plan): Outcome<Code> {
    if a == b then Pass else Fail(PlanDrift)
  }

  /** One step list has one plan record, so planning it twice always matches. */
  lemma SameStepsSamePlan(a: Plan, b: Plan, header: string, steps: seq<Step>)
    requires IsPlan(a, header, steps) && IsPlan(b, header, steps)
    ensures PlanMatches(a, b).Pass?
  {
    assert forall name: TableName :: a.counts.inserted[name] == b.counts.inserted[name];
    assert forall name: TableName :: a.counts.updated[name] == b.counts.updated[name];
  }
}
