/** Compaction tasks as values: what a task record is, which records one call of `Process` tries to
    save, and what comes of it when the store or an RPC fails. */
module CompactionTasks {

  type PlanID = int
  type NodeID = int
  type Channel = string

  const NULL_NODE: NodeID := -1
  const ALL_PARTITIONS: int := -1

  /** A segment's insert channel never changes, so it is part of what identifies the segment here. */
  datatype Segment = Segment(id: int, channel: Channel)

  datatype Kind = Mix | Level0 | Clustering | OtherKind

  datatype TaskState =
    | Unknown | Pipelining | Executing | Timeout | MetaSaved | Completed | Failed
    | Analyzing | Indexing | Cleaned | Statistic

  datatype Record = Record(
    planID: PlanID,
    kind: Kind,
    state: TaskState,
    node: NodeID,
    collection: int,
    partition: int,
    channel: Channel,
    inputs: seq<Segment>,
    results: seq<int>,
    pos: int,
    startTime: int)
  {
    ghost function Inputs(): set<Segment> {
      set s | s in inputs
    }

    /** Tasks with the same label work on the same partition of the same channel. */
    function Label(): (int, Channel) {
      (partition, channel)
    }

    predicate NeedsNode() {
      state == Pipelining && (node == 0 || node == NULL_NODE)
    }

    /** Everything a task never changes about itself. */
    predicate SameTask(r: Record) {
      && planID == r.planID && kind == r.kind && collection == r.collection && partition == r.partition
      && channel == r.channel && inputs == r.inputs && pos == r.pos && startTime == r.startTime
    }
  }

  /** A task: its record, and the sealed segments its last built plan applies deletes to (level-zero only). */
  datatype Task = Task(rec: Record, targets: set<Segment>)

  predicate Terminal(s: TaskState) {
    s == Completed || s == Failed || s == Timeout
  }

  // ---------------------------------------------------------------- what a task meets

  /** What the segment table says about a segment. */
  datatype SegmentInfo = SegmentInfo(
    healthy: bool, collection: int, partition: int, flushed: bool, importing: bool, level0: bool, startTs: int)

  /** The answer when the data node is asked for a plan's result. */
  datatype PlanResult = NoResult(nodeNotFound: bool) | Result(state: TaskState, segments: seq<int>)

  datatype SegmentSave = SegmentsSaved(segments: seq<int>) | IllegalPlan | SegmentSaveError

  /** What a clustering task may do in one call; only its locks matter here. It goes on in some state, completes
      once its segments are indexed, or cleans up after a failure or timeout, which it may have just run into while
      executing. `Forget` is the clean-up whose unlock takes effect but whose save fails: the task is left failed
      or timed out. */
  datatype ClusteringMove =
    | Hold(state: TaskState, node: NodeID)
    | Finish(node: NodeID)
    | Clean(node: NodeID)
    | Forget(state: TaskState)

  /** Everything one call of `Process` depends on besides the task and the lock table. */
  datatype Env = Env(
    idAllocated: bool,
    segments: map<Segment, SegmentInfo>,
    notified: bool,
    result: PlanResult,
    timedOut: bool,
    segmentSave: SegmentSave,
    firstSave: bool,
    secondSave: bool,
    clustering: ClusteringMove)

  predicate InputsHealthy(r: Record, env: Env) {
    forall i :: 0 <= i < |r.inputs| ==> r.inputs[i] in env.segments && env.segments[r.inputs[i]].healthy
  }

  predicate IsTarget(r: Record, s: Segment, info: SegmentInfo) {
    && info.collection == r.collection
    && (r.partition == ALL_PARTITIONS || info.partition == r.partition)
    && s.channel == r.channel
    && info.flushed && !info.importing && !info.level0
    && info.startTs < r.pos
  }

  /** The sealed segments a level-zero task would apply its deletes to. */
  ghost function Targets(r: Record, env: Env): set<Segment> {
    set s | s in env.segments && IsTarget(r, s, env.segments[s])
  }

  /** Whether a plan can be built: a level-zero plan needs at least one target, and none that is being compacted. */
  ghost predicate Buildable(r: Record, locked: set<Segment>, env: Env) {
    && env.idAllocated
    && InputsHealthy(r, env)
    && (r.kind == Level0 ==> Targets(r, env) != {} && Targets(r, env) !! locked)
  }

  // ---------------------------------------------------------------- one call of Process

  /** The records a call tries to save, in order, and whether the task leaves the state machine once all are saved. */
  datatype Script = Script(saves: seq<Record>, exits: bool)

  /** What an executing task does about the data node's answer. Both kinds treat everything alike, except that only a
      mix task distrusts an empty result or gives up on an illegal plan, only a mix task records the segments it
      produced, and only a level-zero task leaves at once when the data node reports a failure. */
  function ExecutingScript(r: Record, env: Env): Script {
    var fail := [r.(state := Failed)];
    match env.result
    case NoResult(nodeNotFound) =>
      Script(if nodeNotFound then [r.(state := Pipelining, node := NULL_NODE)] else [], false)
    case Result(s, segments) =>
      if s == Executing && env.timedOut then Script([r.(state := Timeout)], true)
      else if s == Failed then Script(fail, r.kind == Level0)
      else if s != Completed then Script([], false)
      else if r.kind == Mix && segments == [] then Script(fail, true)
      else
        match env.segmentSave
        case SegmentsSaved(ids) =>
          var saved := if r.kind == Mix then r.(state := MetaSaved, results := ids) else r.(state := MetaSaved);
          Script([saved, saved.(state := Completed)], true)
        case IllegalPlan => if r.kind == Mix then Script(fail, true) else Script([], false)
        case SegmentSaveError => Script([], false)
  }

  ghost function ScriptOf(r: Record, locked: set<Segment>, env: Env): Script {
    match r.state
    case Pipelining =>
      if r.NeedsNode() then Script([], false)
      else if !Buildable(r, locked, env) then Script([r.(state := Failed)], true)
      else if !env.notified then Script([r.(node := NULL_NODE)], false)
      else Script([r.(state := Executing)], false)
    case Executing => ExecutingScript(r, env)
    case MetaSaved => Script([r.(state := Completed)], true)
    case _ => Script([], true)
  }

  /** How many of at most two saves, tried in order until one fails, the store accepts. */
  function Accepted(n: nat, env: Env): (k: nat)
    requires n <= 2
    ensures k <= n && (k > 0 ==> env.firstSave) && (k > 1 ==> env.secondSave)
    ensures k < n ==> !(if k == 0 then env.firstSave else env.secondSave)
  {
    if n == 0 || !env.firstSave then 0 else if n == 1 || !env.secondSave then 1 else 2
  }

  /** The outcome of one call: the task afterwards, the records the store accepted, whether the task asks to be
      removed, and whether it unlocked its inputs. */
  datatype Outcome = Outcome(task: Task, saved: seq<Record>, done: bool, unlocked: bool)

  /** The plan a mix or level-zero task holds afterwards: built anew by every call that finds it pipelining with a
      node. */
  ghost function TargetsAfter(t: Task, locked: set<Segment>, env: Env): set<Segment> {
    if t.rec.state != Pipelining || t.rec.NeedsNode() || t.rec.kind != Level0 then t.targets
    else if Buildable(t.rec, locked, env) then Targets(t.rec, env)
    else {}
  }

  ghost function ProcessSimple(t: Task, locked: set<Segment>, env: Env): Outcome {
    var script := ScriptOf(t.rec, locked, env);
    ScriptLength(t.rec, locked, env);
    var k := Accepted(|script.saves|, env);
    var done := script.exits && k == |script.saves|;
    Outcome(Task(if k == 0 then t.rec else script.saves[k - 1], TargetsAfter(t, locked, env)),
            script.saves[..k],
            done,
            done && Known(t.rec.state))
  }

  /** The states a mix or level-zero task can be in; `Process` leaves a task in any other state without unlocking. */
  predicate Known(s: TaskState) {
    s == Pipelining || s == Executing || s == MetaSaved || Terminal(s)
  }

  predicate CleansUp(s: TaskState) {
    s == Failed || s == Timeout || s == Executing
  }

  /** Whether a clustering task in this state can do that. */
  predicate Possible(s: TaskState, move: ClusteringMove) {
    match move
    case Hold(next, _) => next != Completed && next != Cleaned
    case Finish(_) => s == Indexing
    case Clean(_) => CleansUp(s)
    case Forget(next) => CleansUp(s) && (next == Failed || next == Timeout)
  }

  function ProcessClustering(t: Task, move: ClusteringMove): Outcome {
    if !Possible(t.rec.state, move) then Outcome(t, [], false, false)
    else
      match move
      case Hold(s, n) =>
        var r := t.rec.(state := s, node := n);
        Outcome(t.(rec := r), [r], false, false)
      case Finish(n) =>
        var r := t.rec.(state := Completed, node := n);
        Outcome(t.(rec := r), [r], true, false)
      case Clean(n) =>
        var r := t.rec.(state := Cleaned, node := n);
        Outcome(t.(rec := r), [r], true, true)
      case Forget(s) =>
        var r := t.rec.(state := s);
        Outcome(t.(rec := r), [r], false, true)
  }

  ghost function ProcessTask(t: Task, locked: set<Segment>, env: Env): Outcome {
    if t.rec.kind == Clustering then ProcessClustering(t, env.clustering) else ProcessSimple(t, locked, env)
  }

  lemma ScriptLength(r: Record, locked: set<Segment>, env: Env)
    ensures |ScriptOf(r, locked, env).saves| <= 2
  {
  }

  // ---------------------------------------------------------------- what every call keeps

  /** A call never changes which task a record describes; it saves what it becomes; a finished mix or level-zero
      task has saved a terminal state and unlocked its inputs, and a terminal state is never left. */
  lemma ProcessDiscipline(t: Task, locked: set<Segment>, env: Env)
    requires t.rec.kind == Mix || t.rec.kind == Level0
    requires Known(t.rec.state)
    ensures
      var o := ProcessTask(t, locked, env);
      && o.task.rec.SameTask(t.rec)
      && Known(o.task.rec.state)
      && o.unlocked == o.done
      && (o.done ==> Terminal(o.task.rec.state))
      && (Terminal(t.rec.state) ==> o.done && o.saved == [])
      && o.task.rec == (if o.saved == [] then t.rec else o.saved[|o.saved| - 1])
  {
  }

  /** The segments a level-zero plan targets lie on the task's channel and were not being compacted when it was
      built. */
  lemma BuiltTargetsAreFree(t: Task, locked: set<Segment>, env: Env)
    requires t.rec.kind == Level0
    ensures
      var o := ProcessTask(t, locked, env);
      || o.task.targets == t.targets
      || (o.task.targets !! locked && forall s :: s in o.task.targets ==> s.channel == t.rec.channel)
  {
  }

  /** A mix task keeps its two pre-allocated segment IDs for as long as it may build a plan from them. */
  lemma MixKeepsResultIDs(t: Task, locked: set<Segment>, env: Env)
    requires t.rec.kind == Mix && Known(t.rec.state)
    requires t.rec.state in {Pipelining, Executing} ==> |t.rec.results| >= 2
    ensures var r := ProcessTask(t, locked, env).task.rec; r.state in {Pipelining, Executing} ==> |r.results| >= 2
  {
  }

  // ---------------------------------------------------------------- what a call comes to

  /** What becomes of an executing task, by the data node's answer, the segment save and the two saves of its record. */
  lemma ExecutingStates(t: Task, locked: set<Segment>, env: Env)
    requires (t.rec.kind == Mix || t.rec.kind == Level0) && t.rec.state == Executing
    ensures
      var s, mix := ProcessTask(t, locked, env).task.rec.state, t.rec.kind == Mix;
      && (s == Pipelining <==> env.result.NoResult? && env.result.nodeNotFound && env.firstSave)
      && (s == Timeout <==>
            env.result.Result? && env.result.state == Executing && env.timedOut && env.firstSave)
      && (s == Failed <==>
            && env.result.Result? && env.firstSave
            && (|| env.result.state == Failed
                || (&& mix && env.result.state == Completed
                    && (env.result.segments == [] || env.segmentSave.IllegalPlan?))))
      && (s == MetaSaved || s == Completed <==>
            && env.result.Result? && env.result.state == Completed && (mix ==> env.result.segments != [])
            && env.segmentSave.SegmentsSaved? && env.firstSave)
      && (s == MetaSaved ==> !env.secondSave) && (s == Completed ==> env.secondSave)
      && s in {Pipelining, Executing, Timeout, Failed, MetaSaved, Completed}
  {
  }

  /** The rest of the record: only a mix task whose segments are saved takes over their IDs, only a task sent back loses
      its node, and one that is still executing is untouched. It leaves when it has completed or timed out, or has
      failed, except for a mix task that was told so by the data node, which leaves with its next call. */
  lemma ExecutingRecord(t: Task, locked: set<Segment>, env: Env)
    requires (t.rec.kind == Mix || t.rec.kind == Level0) && t.rec.state == Executing
    ensures
      var o := ProcessTask(t, locked, env);
      var r := o.task.rec;
      && r == t.rec.(
           state := r.state,
           node := if r.state == Pipelining then NULL_NODE else t.rec.node,
           results :=
             if t.rec.kind == Mix && r.state in {MetaSaved, Completed} && env.segmentSave.SegmentsSaved?
             then env.segmentSave.segments else t.rec.results)
      && o.saved == (
           if r.state == Executing then [] else if r.state == Completed then [r.(state := MetaSaved), r] else [r])
      && (o.done <==>
            || r.state == Completed || r.state == Timeout
            || (r.state == Failed && (t.rec.kind == Level0 || env.result.state == Completed)))
      && o.task.targets == t.targets
  {
  }

  /** What a level-zero task applies its deletes to: every flushed segment of its channel, collection and partition, or
      of all partitions, that holds inserts and began before the task's position, unless it is being imported. */
  lemma TargetsExactly(r: Record, env: Env, s: Segment)
    ensures s in Targets(r, env) <==>
      && s in env.segments && s.channel == r.channel
      && var info := env.segments[s];
      && info.collection == r.collection && (r.partition == ALL_PARTITIONS || info.partition == r.partition)
      && info.flushed && !info.importing && !info.level0 && info.startTs < r.pos
  {
  }

  /** A plan can be built exactly when an ID is allocated, every input is known and healthy, and a level-zero task has
      something to apply its deletes to, none of it being compacted. */
  lemma BuildableExactly(r: Record, locked: set<Segment>, env: Env)
    ensures Buildable(r, locked, env) <==>
      && env.idAllocated
      && (forall s :: s in r.inputs ==> s in env.segments && env.segments[s].healthy)
      && (r.kind == Level0 ==> (exists s :: s in Targets(r, env)) && forall s :: s in Targets(r, env) ==> s !in locked)
  {
    if forall s :: s in r.inputs ==> s in env.segments && env.segments[s].healthy {
      assert InputsHealthy(r, env);
    }
    if InputsHealthy(r, env) {
      forall s | s in r.inputs ensures s in env.segments && env.segments[s].healthy {
        var i :| 0 <= i < |r.inputs| && r.inputs[i] == s;
      }
    }
    if exists s :: s in Targets(r, env) {
      assert Targets(r, env) != {};
    }
  }

  /** A pipelining task without a node waits. One with a node fails if no plan can be built, is sent back if the data
      node does not take the plan, and executes otherwise; only the failed one leaves. */
  lemma PipeliningOutcome(t: Task, locked: set<Segment>, env: Env)
    requires (t.rec.kind == Mix || t.rec.kind == Level0) && t.rec.state == Pipelining
    ensures
      var o := ProcessTask(t, locked, env);
      var r, waits, plan := o.task.rec, t.rec.node == 0 || t.rec.node == NULL_NODE, Buildable(t.rec, locked, env);
      && (r.state == Failed <==> !waits && !plan && env.firstSave)
      && (r.state == Executing <==> !waits && plan && env.notified && env.firstSave)
      && r.state in {Pipelining, Executing, Failed}
      && r.node == (if !waits && plan && !env.notified && env.firstSave then NULL_NODE else t.rec.node)
      && r == t.rec.(state := r.state, node := r.node)
      && o.saved == (if waits || !env.firstSave then [] else [r])
      && (o.done <==> r.state == Failed)
      && o.task.targets ==
           if waits || t.rec.kind == Mix then t.targets else if plan then Targets(t.rec, env) else {}
  {
  }

  /** A task whose segments are saved completes as soon as its record can be stored; one that has completed, failed or
      timed out only leaves; and one in a state that is none of its own leaves without giving up its locks. */
  lemma LateOutcome(t: Task, locked: set<Segment>, env: Env)
    requires (t.rec.kind == Mix || t.rec.kind == Level0) && t.rec.state != Pipelining && t.rec.state != Executing
    ensures
      var o := ProcessTask(t, locked, env);
      if t.rec.state == MetaSaved then
        var r := if env.firstSave then t.rec.(state := Completed) else t.rec;
        o == Outcome(t.(rec := r), if env.firstSave then [r] else [], env.firstSave, env.firstSave)
      else
        o == Outcome(t, [], true, t.rec.state == Completed || t.rec.state == Failed || t.rec.state == Timeout)
  {
  }

  /** A clustering task completes only from indexing, and then keeps its locks; it gives them up only where it
      cleans up: failed, timed out, or just timing out. It leaves exactly when it completes or is cleaned up. */
  lemma ClusteringDiscipline(t: Task, locked: set<Segment>, env: Env)
    requires t.rec.kind == Clustering && t.rec.state != Completed && t.rec.state != Cleaned
    ensures
      var o := ProcessTask(t, locked, env);
      var r := o.task.rec;
      && r.SameTask(t.rec) && r.results == t.rec.results && o.task.targets == t.targets
      && (o.done <==> r.state == Completed || r.state == Cleaned)
      && (r.state == Completed ==> t.rec.state == Indexing && !o.unlocked)
      && (o.unlocked ==> t.rec.state in {Failed, Timeout, Executing} && r.state in {Cleaned, Failed, Timeout})
      && (r.state == Cleaned ==> o.unlocked)
      && r == (if o.saved == [] then t.rec else o.saved[|o.saved| - 1])
  {
  }
}
