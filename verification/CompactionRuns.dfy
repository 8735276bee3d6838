/** The compaction handler as a state machine: what every step keeps, over whole runs. */
module CompactionRuns {
  import opened CompactionTasks

  /** `finished` holds the tasks that have asked to be removed since the last sweep of the executing set. */
  datatype Handler = Handler(
    queue: map<PlanID, Task>,
    executing: map<PlanID, Task>,
    finished: set<PlanID>,
    count: int,
    locked: set<Segment>,
    stored: map<PlanID, Record>)

  const EMPTY := Handler(map[], map[], {}, 0, {}, map[])

  // ---------------------------------------------------------------- scheduling

  /** Whether `q`, executing or picked earlier, keeps `t` in the queue. */
  predicate Blocks(q: Record, t: Record) {
    match t.kind
    case Level0 => (q.kind == Level0 || q.kind == Mix) && q.channel == t.channel
    case Mix => q.kind == Level0 && q.channel == t.channel
    case Clustering =>
      || (q.kind == Level0 && q.channel == t.channel)
      || ((q.kind == Mix || q.kind == Clustering) && q.Label() == t.Label())
    case OtherKind => true
  }

  ghost predicate BlockedByExecuting(executing: map<PlanID, Task>, t: Record) {
    t.kind == OtherKind || exists q :: q in executing && Blocks(executing[q].rec, t)
  }

  ghost predicate BlockedByEarlier(queue: map<PlanID, Task>, picked: set<PlanID>, p: PlanID, t: Record) {
    exists q :: q in picked && q in queue && q < p && Blocks(queue[q].rec, t)
  }

  /** A queued task is skipped exactly when an executing task, or one already picked with a smaller plan ID, blocks
      it. */
  ghost predicate IsPick(queue: map<PlanID, Task>, executing: map<PlanID, Task>, picked: set<PlanID>) {
    && picked <= queue.Keys
    && forall p :: p in queue ==>
         (p in picked <==>
            && !BlockedByExecuting(executing, queue[p].rec)
            && !BlockedByEarlier(queue, picked, p, queue[p].rec))
  }

  /** That determines what is picked. */
  lemma PickIsUnique(queue: map<PlanID, Task>, executing: map<PlanID, Task>, a: set<PlanID>, b: set<PlanID>)
    requires IsPick(queue, executing, a) && IsPick(queue, executing, b)
    ensures a == b
  {
    forall p | p in queue ensures p in a <==> p in b {
      PickAgrees(queue, executing, a, b, p);
    }
  }

  lemma {:induction false} PickAgrees(
    queue: map<PlanID, Task>, executing: map<PlanID, Task>, a: set<PlanID>, b: set<PlanID>, p: PlanID)
    requires IsPick(queue, executing, a) && IsPick(queue, executing, b) && p in queue
    ensures p in a <==> p in b
    decreases |Below(queue, p)|
  {
    forall q | q in queue && q < p ensures q in a <==> q in b {
      BelowShrinks(queue, q, p);
      PickAgrees(queue, executing, a, b, q);
    }
    SameEarlier(queue, a, b, p, queue[p].rec);
    SameEarlier(queue, b, a, p, queue[p].rec);
  }

  ghost function Below(queue: map<PlanID, Task>, p: PlanID): set<PlanID> {
    set q | q in queue && q < p
  }

  lemma BelowShrinks(queue: map<PlanID, Task>, q: PlanID, p: PlanID)
    requires q in queue && q < p
    ensures |Below(queue, q)| < |Below(queue, p)|
  {
    assert Below(queue, q) + {q} <= Below(queue, p);
    Subset(Below(queue, q) + {q}, Below(queue, p));
  }

  lemma Subset<T>(a: set<T>, b: set<T>)
    requires a <= b
    ensures |a| <= |b|
  {
    assert b == a + (b - a);
  }

  lemma SameEarlier(queue: map<PlanID, Task>, a: set<PlanID>, b: set<PlanID>, p: PlanID, t: Record)
    requires forall q :: q in queue && q < p && q in a ==> q in b
    ensures BlockedByEarlier(queue, a, p, t) ==> BlockedByEarlier(queue, b, p, t)
  {
  }

  /** The record of a task that is executing, or was picked with a smaller plan ID than `p`. */
  ghost predicate Ahead(
    queue: map<PlanID, Task>, executing: map<PlanID, Task>, picked: set<PlanID>, p: PlanID, r: Record)
  {
    || (exists q :: q in executing && executing[q].rec == r)
    || (exists q :: q in picked && q in queue && q < p && queue[q].rec == r)
  }

  /** A task stays in the queue exactly if one ahead of it clashes with it. */
  lemma SkippedIfBlockedAhead(
    queue: map<PlanID, Task>, executing: map<PlanID, Task>, picked: set<PlanID>, p: PlanID)
    requires IsPick(queue, executing, picked) && p in queue && queue[p].rec.kind != OtherKind
    ensures p !in picked <==> exists r :: Ahead(queue, executing, picked, p, r) && Blocks(r, queue[p].rec)
  {
    var t := queue[p].rec;
    if BlockedByExecuting(executing, t) {
      var q :| q in executing && Blocks(executing[q].rec, t);
      assert Ahead(queue, executing, picked, p, executing[q].rec);
    }
    if BlockedByEarlier(queue, picked, p, t) {
      var q :| q in picked && q in queue && q < p && Blocks(queue[q].rec, t);
      assert Ahead(queue, executing, picked, p, queue[q].rec);
    }
  }

  /** A mix task waits exactly for level-zero tasks on its channel. */
  lemma MixWaitsExactlyWhen(queue: map<PlanID, Task>, executing: map<PlanID, Task>, picked: set<PlanID>, p: PlanID)
    requires IsPick(queue, executing, picked) && p in queue && queue[p].rec.kind == Mix
    ensures
      p !in picked <==>
        exists r :: Ahead(queue, executing, picked, p, r) && r.kind == Level0 && r.channel == queue[p].rec.channel
  {
    SkippedIfBlockedAhead(queue, executing, picked, p);
  }

  /** A level-zero task waits exactly for level-zero and mix tasks on its channel. */
  lemma Level0WaitsExactlyWhen(queue: map<PlanID, Task>, executing: map<PlanID, Task>, picked: set<PlanID>, p: PlanID)
    requires IsPick(queue, executing, picked) && p in queue && queue[p].rec.kind == Level0
    ensures
      p !in picked <==>
        exists r ::
          && Ahead(queue, executing, picked, p, r)
          && (r.kind == Level0 || r.kind == Mix) && r.channel == queue[p].rec.channel
  {
    SkippedIfBlockedAhead(queue, executing, picked, p);
  }

  /** A clustering task waits exactly for level-zero tasks on its channel, and for mix and clustering tasks on its
      partition of it. */
  lemma ClusteringWaitsExactlyWhen(
    queue: map<PlanID, Task>, executing: map<PlanID, Task>, picked: set<PlanID>, p: PlanID)
    requires IsPick(queue, executing, picked) && p in queue && queue[p].rec.kind == Clustering
    ensures
      p !in picked <==>
        exists r ::
          && Ahead(queue, executing, picked, p, r) && r.channel == queue[p].rec.channel
          && (r.kind == Level0 || ((r.kind == Mix || r.kind == Clustering) && r.partition == queue[p].rec.partition))
  {
    SkippedIfBlockedAhead(queue, executing, picked, p);
  }

  /** Among all tasks, queued or executing, only these can hold a task back. */
  predicate Rivals(r: Record, t: Record) {
    && r.channel == t.channel
    && match t.kind
       case Mix => r.kind == Level0
       case Level0 => r.kind == Level0 || r.kind == Mix
       case Clustering => r.kind == Level0 || ((r.kind == Mix || r.kind == Clustering) && r.partition == t.partition)
       case OtherKind => true
  }

  /** A task without rivals starts at once. */
  lemma FreeIsPicked(queue: map<PlanID, Task>, executing: map<PlanID, Task>, picked: set<PlanID>, p: PlanID)
    requires IsPick(queue, executing, picked) && p in queue && queue[p].rec.kind != OtherKind
    requires forall q :: q in executing ==> !Rivals(executing[q].rec, queue[p].rec)
    requires forall q :: q in queue && q != p ==> !Rivals(queue[q].rec, queue[p].rec)
    ensures p in picked
  {
    match queue[p].rec.kind {
      case Mix => MixWaitsExactlyWhen(queue, executing, picked, p);
      case Level0 => Level0WaitsExactlyWhen(queue, executing, picked, p);
      case Clustering => ClusteringWaitsExactlyWhen(queue, executing, picked, p);
    }
  }

  /** A clustering task never starts beside a mix or another clustering task on its partition of its channel. */
  lemma ClusteringStartsAlone(
    queue: map<PlanID, Task>, executing: map<PlanID, Task>, picked: set<PlanID>, p: PlanID, q: PlanID)
    requires IsPick(queue, executing, picked) && p in picked && queue[p].rec.kind == Clustering && q in executing
    ensures executing[q].rec.kind == Mix || executing[q].rec.kind == Clustering ==>
      executing[q].rec.channel != queue[p].rec.channel || executing[q].rec.partition != queue[p].rec.partition
  {
    assert Ahead(queue, executing, picked, p, executing[q].rec);
    ClusteringWaitsExactlyWhen(queue, executing, picked, p);
  }

  // ---------------------------------------------------------------- steps

  datatype Step =
    | Enqueue(rec: Record, known: set<Segment>, saved: bool)
    | Schedule(picked: set<PlanID>)
    | Assign(plan: PlanID, node: NodeID)
    | Process(plan: PlanID, env: Env)
    | Sweep
    | RemoveChannel(channel: Channel)

  /** Whether an enqueue gets through: the segments exist, none is being compacted, and the record is saved. */
  ghost predicate Admitted(h: Handler, rec: Record, known: set<Segment>, saved: bool) {
    && rec.kind != OtherKind
    && rec.Inputs() <= known
    && rec.Inputs() !! h.locked
    && saved
  }

  /** What callers owe: a fresh plan ID, a new task whose inputs lie on its own channel, and, for a mix
      task, its two pre-allocated segment IDs. */
  ghost predicate GoodRequest(h: Handler, rec: Record) {
    && rec.planID !in h.stored
    && rec.state == Pipelining
    && (rec.kind == Mix ==> |rec.results| >= 2)
    && forall s :: s in rec.inputs ==> s.channel == rec.channel
  }

  ghost predicate Enabled(h: Handler, step: Step) {
    match step
    case Enqueue(rec, _, _) => GoodRequest(h, rec)
    case Schedule(picked) => IsPick(h.queue, h.executing, picked)
    case Assign(p, _) => p in h.executing && p !in h.finished && h.executing[p].rec.NeedsNode()
    case Process(p, _) => p in h.executing && p !in h.finished
    case Sweep => true
    case RemoveChannel(_) => true
  }

  ghost function OnChannel(tasks: map<PlanID, Task>, channel: Channel): set<PlanID> {
    set p | p in tasks && tasks[p].rec.channel == channel
  }

  ghost function Part<T>(m: map<PlanID, T>, s: set<PlanID>): (r: map<PlanID, T>)
    requires s <= m.Keys
    ensures r.Keys == s
  {
    map p | p in s :: m[p]
  }

  ghost function AfterEnqueue(h: Handler, rec: Record, known: set<Segment>, saved: bool): Handler {
    if Admitted(h, rec, known, saved) then
      h.(queue := h.queue[rec.planID := Task(rec, {})], count := h.count + 1,
         locked := h.locked + rec.Inputs(), stored := h.stored[rec.planID := rec])
    else h
  }

  ghost function Apply(h: Handler, step: Step): Handler
    requires Enabled(h, step)
  {
    match step
    case Enqueue(rec, known, saved) => AfterEnqueue(h, rec, known, saved)
    case Schedule(picked) =>
      h.(queue := h.queue - picked, executing := h.executing + Part(h.queue, picked))
    case Assign(p, node) =>
      var t := h.executing[p].(rec := h.executing[p].rec.(node := node));
      h.(executing := h.executing[p := t], stored := h.stored[p := t.rec])
    case Process(p, env) =>
      var o := ProcessTask(h.executing[p], h.locked, env);
      h.(executing := h.executing[p := o.task],
         finished := if o.done then h.finished + {p} else h.finished,
         locked := if o.unlocked then h.locked - o.task.rec.Inputs() else h.locked,
         stored := if o.saved == [] then h.stored else h.stored[p := o.saved[|o.saved| - 1]])
    case Sweep =>
      h.(executing := h.executing - h.finished, finished := {}, count := h.count - |h.finished|)
    case RemoveChannel(channel) =>
      var q, e := OnChannel(h.queue, channel), OnChannel(h.executing, channel);
      h.(queue := h.queue - q, executing := h.executing - e, count := h.count - |q| - |e|)
  }

  /** What enqueuing comes to: a request of a legal kind whose inputs all exist and are all free, and whose record is
      saved, is queued with its inputs flagged and its record stored; any other changes nothing. */
  lemma EnqueueOutcome(h: Handler, rec: Record, known: set<Segment>, saved: bool, p: PlanID, s: Segment)
    ensures
      var h' := AfterEnqueue(h, rec, known, saved);
      var fits := rec.kind != OtherKind && saved && forall x :: x in rec.inputs ==> x in known && x !in h.locked;
      && (!fits ==> h' == h)
      && (fits ==>
            && (p in h'.queue <==> p in h.queue || p == rec.planID)
            && (p in h'.queue ==> h'.queue[p] == if p == rec.planID then Task(rec, {}) else h.queue[p])
            && (s in h'.locked <==> s in h.locked || s in rec.inputs)
            && (p in h'.stored <==> p in h.stored || p == rec.planID)
            && (p in h'.stored ==> h'.stored[p] == if p == rec.planID then rec else h.stored[p])
            && h'.executing == h.executing && h'.finished == h.finished && h'.count == h.count + 1)
  {
    if forall x :: x in rec.inputs ==> x in known && x !in h.locked {
      assert forall x :: x in rec.Inputs() ==> x in known && x !in h.locked;
    } else {
      var x :| x in rec.inputs && (x !in known || x in h.locked);
      assert x in rec.Inputs();
    }
  }

  /** A removal takes exactly the tasks of the channel out of queue and executing set, and nothing else. */
  lemma RemovalOutcome(h: Handler, channel: Channel, p: PlanID)
    ensures
      var h' := Apply(h, RemoveChannel(channel));
      && (p in h'.queue <==> p in h.queue && h.queue[p].rec.channel != channel)
      && (p in h'.queue ==> h'.queue[p] == h.queue[p])
      && (p in h'.executing <==> p in h.executing && h.executing[p].rec.channel != channel)
      && (p in h'.executing ==> h'.executing[p] == h.executing[p])
      && h'.locked == h.locked && h'.stored == h.stored && h'.finished == h.finished
  {
  }

  /** A sweep takes exactly the finished tasks out of the executing set. */
  lemma SweepOutcome(h: Handler, p: PlanID)
    ensures
      var h' := Apply(h, Sweep);
      && (p in h'.executing <==> p in h.executing && p !in h.finished)
      && (p in h'.executing ==> h'.executing[p] == h.executing[p])
      && h'.queue == h.queue && h'.locked == h.locked && h'.stored == h.stored && h'.finished == {}
  {
  }

  /** Only an executing task that is pipelining without a node is offered one, and it takes it over as it is. */
  lemma AssignOutcome(h: Handler, p: PlanID, node: NodeID)
    ensures Enabled(h, Assign(p, node)) <==>
      && p in h.executing && p !in h.finished && h.executing[p].rec.state == Pipelining
      && (h.executing[p].rec.node == 0 || h.executing[p].rec.node == NULL_NODE)
    ensures Enabled(h, Assign(p, node)) ==>
      var h', r := Apply(h, Assign(p, node)), h.executing[p].rec.(node := node);
      && h' == h.(executing := h.executing[p := h.executing[p].(rec := r)], stored := h.stored[p := r])
      && (node != 0 && node != NULL_NODE ==> forall n :: !Enabled(h', Assign(p, n)))
  {
  }

  /** A task that was sent back is offered a node again: its data node is gone, or did not take the plan. */
  lemma SentBackIsOffered(h: Handler, p: PlanID, env: Env, node: NodeID)
    requires Enabled(h, Process(p, env)) && env.firstSave
    requires h.executing[p].rec.kind == Mix || h.executing[p].rec.kind == Level0
    requires
      var r := h.executing[p].rec;
      || (r.state == Executing && env.result.NoResult? && env.result.nodeNotFound)
      || (r.state == Pipelining && r.node != 0 && Buildable(r, h.locked, env) && !env.notified)
    ensures Enabled(Apply(h, Process(p, env)), Assign(p, node))
  {
  }

  /** Processing a task concerns that task alone: its record in memory and in the store, whether it has finished, and
      its own locks. */
  lemma ProcessOutcome(h: Handler, p: PlanID, env: Env, q: PlanID, s: Segment)
    requires Enabled(h, Process(p, env))
    ensures
      var h', o := Apply(h, Process(p, env)), ProcessTask(h.executing[p], h.locked, env);
      && h'.queue == h.queue && h'.count == h.count
      && (q in h'.executing <==> q in h.executing)
      && (q in h'.executing ==> h'.executing[q] == if q == p then o.task else h.executing[q])
      && (q in h'.finished <==> q in h.finished || (q == p && o.done))
      && (s in h'.locked <==> s in h.locked && !(o.unlocked && s in o.task.rec.inputs))
      && (q in h'.stored <==> q in h.stored || (q == p && o.saved != []))
      && (q in h'.stored ==>
            h'.stored[q] == if q == p && o.saved != [] then o.saved[|o.saved| - 1] else h.stored[q])
  {
    var r := ProcessTask(h.executing[p], h.locked, env).task.rec;
    assert s in r.Inputs() <==> s in r.inputs;
  }

  // ---------------------------------------------------------------- the invariant

  ghost predicate Live(h: Handler, p: PlanID) {
    p in h.queue || (p in h.executing && p !in h.finished)
  }

  ghost function TaskOf(h: Handler, p: PlanID): Task
    requires p in h.queue || p in h.executing
  {
    if p in h.queue then h.queue[p] else h.executing[p]
  }

  ghost predicate GoodTask(t: Task, p: PlanID) {
    && t.rec.planID == p
    && t.rec.kind != OtherKind
    && (t.rec.kind != Clustering ==> Known(t.rec.state))
    && (t.rec.kind == Mix && t.rec.state in {Pipelining, Executing} ==> |t.rec.results| >= 2)
    && (forall s :: s in t.rec.inputs ==> s.channel == t.rec.channel)
    && (forall s :: s in t.targets ==> s.channel == t.rec.channel)
  }

  /** Queue and executing set are apart and hold well-formed tasks, and the record of each is the one last stored. */
  ghost predicate Shape(h: Handler) {
    && h.queue.Keys !! h.executing.Keys
    && h.finished <= h.stored.Keys && h.finished !! h.queue.Keys
    && (forall p :: p in h.queue ==> GoodTask(h.queue[p], p) && h.queue[p].targets == {})
    && (forall p :: p in h.executing ==> GoodTask(h.executing[p], p))
    && (forall p :: p in h.queue ==> p in h.stored && h.stored[p] == h.queue[p].rec)
    && (forall p :: p in h.executing ==> p in h.stored && h.stored[p] == h.executing[p].rec)
  }

  /** Every segment of a live task is flagged, and no two live tasks share one. */
  ghost predicate Locks(h: Handler) {
    && (forall p :: Live(h, p) ==> TaskOf(h, p).rec.Inputs() <= h.locked)
    && (forall p, q :: Live(h, p) && Live(h, q) && p != q ==> TaskOf(h, p).rec.Inputs() !! TaskOf(h, q).rec.Inputs())
  }

  predicate Excluded(a: Record, b: Record) {
    || (a.kind == Level0 && (b.kind == Level0 || b.kind == Mix) && a.channel == b.channel)
    || (a.kind == Clustering && b.kind == Clustering && a.Label() == b.Label())
  }

  /** No two level-zero tasks and no level-zero and mix task on one channel, no two clustering tasks with one label. */
  ghost predicate Exclusion(h: Handler) {
    forall p, q :: p in h.executing && q in h.executing && p != q ==> !Excluded(h.executing[p].rec, h.executing[q].rec)
  }

  /** What a level-zero task is applying deletes to, no mix or clustering task is rewriting. */
  ghost predicate Isolation(h: Handler) {
    forall p, q ::
      && p in h.executing && p !in h.finished && h.executing[p].rec.kind == Level0
      && q in h.executing && q !in h.finished && h.executing[q].rec.kind != Level0
      ==> h.executing[p].targets !! h.executing[q].rec.Inputs()
  }

  /** What holds whether or not locks are kept. */
  ghost predicate Order(h: Handler) {
    Shape(h) && Exclusion(h)
  }

  ghost predicate Inv(h: Handler) {
    Order(h) && Locks(h) && Isolation(h)
  }

  /** A step in which a clustering task unlocks its inputs but stays, because the save that should follow fails. */
  ghost predicate Forgets(h: Handler, step: Step) {
    && step.Process? && step.plan in h.executing
    && var r := h.executing[step.plan].rec;
    && r.kind == Clustering && step.env.clustering.Forget? && Possible(r.state, step.env.clustering)
    && r.inputs != []
  }

  // ---------------------------------------------------------------- every step keeps order

  /** A picked task clashes with no executing task and with no other picked one. */
  lemma PickedIsClear(h: Handler, picked: set<PlanID>, p: PlanID, q: PlanID)
    requires Shape(h) && IsPick(h.queue, h.executing, picked)
      && p in picked && (q in picked || q in h.executing) && p != q
    ensures !Excluded(TaskOf(h, p).rec, TaskOf(h, q).rec) && !Excluded(TaskOf(h, q).rec, TaskOf(h, p).rec)
    ensures q in h.executing && h.executing[q].rec.kind == Level0 ==>
        h.executing[q].rec.channel != h.queue[p].rec.channel
  {
  }

  lemma ScheduleMoves(h: Handler, picked: set<PlanID>)
    requires Shape(h) && IsPick(h.queue, h.executing, picked)
    ensures var h' := Apply(h, Schedule(picked));
      && h'.queue.Keys == h.queue.Keys - picked
      && h'.executing.Keys == h.executing.Keys + picked
      && (forall p :: p in h'.executing ==> h'.executing[p] == TaskOf(h, p))
      && (forall p :: Live(h', p) <==> Live(h, p))
      && (forall p :: Live(h', p) ==> TaskOf(h', p) == TaskOf(h, p))
  {
  }

  lemma ScheduleKeepsOrder(h: Handler, picked: set<PlanID>)
    requires Order(h) && IsPick(h.queue, h.executing, picked)
    ensures Order(Apply(h, Schedule(picked)))
  {
    var h' := Apply(h, Schedule(picked));
    ScheduleMoves(h, picked);
    forall p, q | p in h'.executing && q in h'.executing && p != q
      ensures !Excluded(h'.executing[p].rec, h'.executing[q].rec)
    {
      if p in picked {
        PickedIsClear(h, picked, p, q);
      } else if q in picked {
        PickedIsClear(h, picked, q, p);
      }
    }
  }

  lemma EnqueueKeepsOrder(h: Handler, rec: Record, known: set<Segment>, saved: bool)
    requires Order(h) && GoodRequest(h, rec)
    ensures Order(Apply(h, Enqueue(rec, known, saved)))
  {
    assert rec.planID !in h.queue && rec.planID !in h.executing && rec.planID !in h.finished;
  }

  /** `h'` differs from `h` in one executing task: a later record of the same task, which may have finished. */
  ghost predicate OneTaskMoved(h: Handler, h': Handler, p: PlanID) {
    && p in h.executing && p !in h.finished
    && h'.queue == h.queue && h'.executing.Keys == h.executing.Keys
    && (forall q :: q in h.executing && q != p ==> h'.executing[q] == h.executing[q])
    && (h'.finished == h.finished || h'.finished == h.finished + {p})
    && GoodTask(h'.executing[p], p) && h'.executing[p].rec.SameTask(h.executing[p].rec)
    && h'.stored == h.stored[p := h'.executing[p].rec]
  }

  lemma MovedKeepsShape(h: Handler, h': Handler, p: PlanID)
    requires Shape(h) && OneTaskMoved(h, h', p)
    ensures Shape(h')
  {
  }

  lemma MovedKeepsExclusion(h: Handler, h': Handler, p: PlanID)
    requires Exclusion(h) && OneTaskMoved(h, h', p)
    ensures Exclusion(h')
  {
    forall q | q in h'.executing
      ensures
        var r, r' := h.executing[q].rec, h'.executing[q].rec;
        r'.kind == r.kind && r'.channel == r.channel && r'.Label() == r.Label()
    {
    }
  }

  /** A call leaves a good task good, in memory and in the store. */
  lemma ProcessedIsGood(t: Task, p: PlanID, locked: set<Segment>, env: Env)
    requires GoodTask(t, p)
    ensures
      var o := ProcessTask(t, locked, env);
      && GoodTask(o.task, p) && o.task.rec.SameTask(t.rec)
      && o.task.rec == (if o.saved == [] then t.rec else o.saved[|o.saved| - 1])
      && (o.task.targets == t.targets || o.task.targets !! locked)
  {
    if t.rec.kind != Clustering {
      ProcessDiscipline(t, locked, env);
      if t.rec.kind == Level0 {
        BuiltTargetsAreFree(t, locked, env);
      } else {
        MixKeepsResultIDs(t, locked, env);
      }
    }
  }

  lemma ProcessMoves(h: Handler, p: PlanID, env: Env)
    requires Shape(h) && Enabled(h, Process(p, env))
    ensures OneTaskMoved(h, Apply(h, Process(p, env)), p)
  {
    ProcessedIsGood(h.executing[p], p, h.locked, env);
    var h' := Apply(h, Process(p, env));
    assert h'.stored == h.stored[p := h'.executing[p].rec];
  }

  lemma TakingAwayKeepsOrder(h: Handler, h': Handler)
    requires Order(h) && h'.stored == h.stored && h'.finished <= h.finished
    requires forall p :: p in h'.queue ==> p in h.queue && h'.queue[p] == h.queue[p]
    requires forall p :: p in h'.executing ==> p in h.executing && h'.executing[p] == h.executing[p]
    ensures Order(h')
  {
    forall p | p in h'.queue.Keys ensures p !in h'.executing.Keys && p !in h'.finished {
      assert p in h.queue.Keys;
    }
  }

  /** Every step of the handler keeps order, a forgotten unlock included. */
  lemma StepKeepsOrder(h: Handler, step: Step)
    requires Order(h) && Enabled(h, step)
    ensures Order(Apply(h, step))
  {
    var h' := Apply(h, step);
    match step {
      case Enqueue(rec, known, saved) => EnqueueKeepsOrder(h, rec, known, saved);
      case Schedule(picked) => ScheduleKeepsOrder(h, picked);
      case Assign(p, _) =>
        MovedKeepsShape(h, h', p);
        MovedKeepsExclusion(h, h', p);
      case Process(p, env) =>
        ProcessMoves(h, p, env);
        MovedKeepsShape(h, h', p);
        MovedKeepsExclusion(h, h', p);
      case Sweep => TakingAwayKeepsOrder(h, h');
      case RemoveChannel(_) => TakingAwayKeepsOrder(h, h');
    }
  }

  // ---------------------------------------------------------------- and all but one keep locks and isolation

  lemma EnqueueKeepsInv(h: Handler, rec: Record, known: set<Segment>, saved: bool)
    requires Inv(h) && GoodRequest(h, rec)
    ensures Inv(Apply(h, Enqueue(rec, known, saved)))
  {
    var h' := Apply(h, Enqueue(rec, known, saved));
    EnqueueKeepsOrder(h, rec, known, saved);
    if Admitted(h, rec, known, saved) {
      assert rec.planID !in h.queue && rec.planID !in h.executing && rec.planID !in h.finished;
      assert forall p :: Live(h', p) ==> p == rec.planID || (Live(h, p) && TaskOf(h', p) == TaskOf(h, p));
    }
  }

  lemma ScheduleKeepsInv(h: Handler, picked: set<PlanID>)
    requires Inv(h) && IsPick(h.queue, h.executing, picked)
    ensures Inv(Apply(h, Schedule(picked)))
  {
    ScheduleKeepsOrder(h, picked);
    ScheduleMoves(h, picked);
    ScheduleKeepsIsolation(h, picked);
  }

  /** A task that starts has no targets yet, and none starts on the channel of a level-zero task that has some. */
  lemma ScheduleKeepsIsolation(h: Handler, picked: set<PlanID>)
    requires Shape(h) && Isolation(h) && IsPick(h.queue, h.executing, picked)
    ensures Isolation(Apply(h, Schedule(picked)))
  {
  }

  /** The task that moved gave up its locks only if it has finished, and its new targets, if any, were free. */
  ghost predicate MovedWithLocks(h: Handler, h': Handler, p: PlanID)
    requires p in h.executing && p in h'.executing
  {
    && (h'.locked == h.locked || (p in h'.finished && h'.locked == h.locked - h.executing[p].rec.Inputs()))
    && (h'.executing[p].targets == h.executing[p].targets || h'.executing[p].targets !! h.locked)
  }

  lemma MovedKeepsLocks(h: Handler, h': Handler, p: PlanID)
    requires Locks(h) && Shape(h) && OneTaskMoved(h, h', p) && MovedWithLocks(h, h', p)
    ensures Locks(h')
  {
    forall q | Live(h', q)
      ensures Live(h, q) && TaskOf(h', q).rec.inputs == TaskOf(h, q).rec.inputs
      ensures TaskOf(h', q).rec.Inputs() <= h'.locked
    {
      assert TaskOf(h, q).rec.Inputs() <= h.locked;
      if p in h'.finished {
        assert q != p && TaskOf(h, q).rec.Inputs() !! TaskOf(h, p).rec.Inputs();
      }
    }
  }

  lemma MovedKeepsIsolation(h: Handler, h': Handler, p: PlanID)
    requires Inv(h) && OneTaskMoved(h, h', p) && MovedWithLocks(h, h', p)
    ensures Isolation(h')
  {
    forall a, b | a in h'.executing && b in h'.executing && a !in h'.finished && b !in h'.finished
                  && h'.executing[a].rec.kind == Level0 && h'.executing[b].rec.kind != Level0
      ensures h'.executing[a].targets !! h'.executing[b].rec.Inputs()
    {
      assert Live(h, b) && TaskOf(h, b) == h.executing[b];
      assert h'.executing[b].rec.inputs == h.executing[b].rec.inputs;
      assert h.executing[b].rec.Inputs() <= h.locked;
    }
  }

  lemma MovedKeepsInv(h: Handler, h': Handler, p: PlanID)
    requires Inv(h) && OneTaskMoved(h, h', p) && MovedWithLocks(h, h', p)
    ensures Inv(h')
  {
    MovedKeepsShape(h, h', p);
    MovedKeepsLocks(h, h', p);
    MovedKeepsExclusion(h, h', p);
    MovedKeepsIsolation(h, h', p);
  }

  lemma AssignKeepsInv(h: Handler, p: PlanID, node: NodeID)
    requires Inv(h) && Enabled(h, Assign(p, node))
    ensures Inv(Apply(h, Assign(p, node)))
  {
    MovedKeepsInv(h, Apply(h, Assign(p, node)), p);
  }

  /** A call unlocks only when it is done, unless it forgets or has nothing to unlock. */
  lemma UnlocksWhenDone(t: Task, p: PlanID, locked: set<Segment>, env: Env)
    requires GoodTask(t, p)
    requires t.rec.kind == Clustering && env.clustering.Forget? && Possible(t.rec.state, env.clustering) ==>
        t.rec.inputs == []
    ensures ProcessTask(t, locked, env).unlocked ==> ProcessTask(t, locked, env).done || t.rec.inputs == []
  {
    if t.rec.kind != Clustering {
      ProcessDiscipline(t, locked, env);
    }
  }

  lemma ProcessKeepsInv(h: Handler, p: PlanID, env: Env)
    requires Inv(h) && Enabled(h, Process(p, env)) && !Forgets(h, Process(p, env))
    ensures Inv(Apply(h, Process(p, env)))
  {
    var h', t := Apply(h, Process(p, env)), h.executing[p];
    ProcessMoves(h, p, env);
    ProcessedIsGood(t, p, h.locked, env);
    UnlocksWhenDone(t, p, h.locked, env);
    assert t.rec.inputs == [] ==> t.rec.Inputs() == {};
    assert h'.executing[p].rec.Inputs() == t.rec.Inputs();
    MovedKeepsInv(h, h', p);
  }

  lemma SweepKeepsInv(h: Handler)
    requires Inv(h)
    ensures Inv(Apply(h, Sweep))
  {
    var h' := Apply(h, Sweep);
    TakingAwayKeepsOrder(h, h');
    assert forall p :: Live(h', p) ==> Live(h, p) && TaskOf(h', p) == TaskOf(h, p);
  }

  lemma RemoveChannelKeepsInv(h: Handler, channel: Channel)
    requires Inv(h)
    ensures Inv(Apply(h, RemoveChannel(channel)))
  {
    var h' := Apply(h, RemoveChannel(channel));
    TakingAwayKeepsOrder(h, h');
    assert forall p :: Live(h', p) ==> Live(h, p) && TaskOf(h', p) == TaskOf(h, p);
  }

  /** A forgotten unlock leaves a live task without its locks. */
  lemma ForgettingBreaksLocks(h: Handler, step: Step)
    requires Shape(h) && Enabled(h, step) && Forgets(h, step)
    ensures !Locks(Apply(h, step))
  {
    var h', p := Apply(h, step), step.plan;
    var s := h.executing[p].rec.inputs[0];
    assert s in h.executing[p].rec.Inputs() && s !in h'.locked;
    assert Live(h', p) && TaskOf(h', p).rec.inputs == h.executing[p].rec.inputs;
  }

  /** Every step of the handler keeps the invariant, but for a forgotten unlock, which never does. */
  lemma StepKeepsInvExactlyWhen(h: Handler, step: Step)
    requires Inv(h) && Enabled(h, step)
    ensures Inv(Apply(h, step)) <==> !Forgets(h, step)
    ensures Locks(Apply(h, step)) <==> !Forgets(h, step)
  {
    if Forgets(h, step) {
      ForgettingBreaksLocks(h, step);
    } else {
      match step {
        case Enqueue(rec, known, saved) => EnqueueKeepsInv(h, rec, known, saved);
        case Schedule(picked) => ScheduleKeepsInv(h, picked);
        case Assign(p, node) => AssignKeepsInv(h, p, node);
        case Process(p, env) => ProcessKeepsInv(h, p, env);
        case Sweep => SweepKeepsInv(h);
        case RemoveChannel(channel) => RemoveChannelKeepsInv(h, channel);
      }
    }
  }

  // ---------------------------------------------------------------- whole runs

  ghost predicate Leads(states: seq<Handler>, steps: seq<Step>) {
    && |states| == |steps| + 1
    && forall i :: 0 <= i < |steps| ==> Enabled(states[i], steps[i]) && states[i + 1] == Apply(states[i], steps[i])
  }

  /** A run: any interleaving of steps, from a handler without tasks. */
  ghost predicate IsRun(states: seq<Handler>, steps: seq<Step>) {
    Leads(states, steps) && states[0] == EMPTY
  }

  lemma ExtendLeads(states: seq<Handler>, steps: seq<Step>, step: Step)
    requires Leads(states, steps) && Enabled(states[|steps|], step)
    ensures Leads(states + [Apply(states[|steps|], step)], steps + [step])
  {
  }

  /** In none of the first `n` steps is an unlock forgotten. */
  ghost predicate Faithful(states: seq<Handler>, steps: seq<Step>, n: nat)
    requires Leads(states, steps) && n <= |steps|
  {
    forall i :: 0 <= i < n ==> !Forgets(states[i], steps[i])
  }

  lemma {:induction false} OrderThroughout(states: seq<Handler>, steps: seq<Step>, n: nat)
    requires Leads(states, steps) && Order(states[0]) && n <= |steps|
    ensures Order(states[n])
  {
    if n == 0 {
    } else {
      OrderThroughout(states, steps, n - 1);
      assert states[n] == Apply(states[n - 1], steps[n - 1]);
      StepKeepsOrder(states[n - 1], steps[n - 1]);
    }
  }

  lemma {:induction false} InvThroughout(states: seq<Handler>, steps: seq<Step>, n: nat)
    requires Leads(states, steps) && Inv(states[0]) && n <= |steps| && Faithful(states, steps, n)
    ensures Inv(states[n])
  {
    if n == 0 {
    } else {
      InvThroughout(states, steps, n - 1);
      assert states[n] == Apply(states[n - 1], steps[n - 1]);
      StepKeepsInvExactlyWhen(states[n - 1], steps[n - 1]);
    }
  }

  lemma EmptyIsSafe()
    ensures Inv(EMPTY)
  {
  }

  lemma InOrder(states: seq<Handler>, steps: seq<Step>, n: nat)
    requires IsRun(states, steps) && n <= |steps|
    ensures Shape(states[n]) && Exclusion(states[n])
  {
    EmptyIsSafe();
    OrderThroughout(states, steps, n);
  }

  /** In every state of every run: queue and executing set are apart, every record is the one last stored, and
      conflicting tasks never execute together. And as long as no unlock has been forgotten: the segments of live
      tasks are flagged and shared by no two, and no mix or clustering task rewrites what a level-zero task is
      applying deletes to. */
  lemma SafeThroughout(states: seq<Handler>, steps: seq<Step>, n: nat)
    requires IsRun(states, steps) && n <= |steps|
    ensures Shape(states[n]) && Exclusion(states[n])
    ensures Faithful(states, steps, n) ==> Locks(states[n]) && Isolation(states[n])
  {
    InOrder(states, steps, n);
    if Faithful(states, steps, n) {
      EmptyIsSafe();
      InvThroughout(states, steps, n);
    }
  }

  /** And the other way round: locks are kept in every state of a run if and only if no unlock is forgotten in it, and
      everything is safe then. */
  lemma SafeExactlyWhen(states: seq<Handler>, steps: seq<Step>)
    requires IsRun(states, steps)
    ensures (forall n :: 0 <= n < |states| ==> Locks(states[n])) <==> Faithful(states, steps, |steps|)
    ensures (forall n :: 0 <= n < |states| ==> Inv(states[n])) <==> Faithful(states, steps, |steps|)
  {
    if Faithful(states, steps, |steps|) {
      forall n | 0 <= n < |states| ensures Inv(states[n]) {
        SafeThroughout(states, steps, n);
      }
    }
    if forall n :: 0 <= n < |states| ==> Locks(states[n]) {
      forall i | 0 <= i < |steps| ensures !Forgets(states[i], steps[i]) {
        InOrder(states, steps, i);
        assert states[i + 1] == Apply(states[i], steps[i]) && Locks(states[i + 1]);
        if Forgets(states[i], steps[i]) {
          ForgettingBreaksLocks(states[i], steps[i]);
          assert false;
        }
      }
    }
  }

  /** A mix or level-zero task asks to be removed only once it has stored a terminal state and unlocked its inputs. */
  lemma ExitDiscipline(states: seq<Handler>, steps: seq<Step>, n: nat)
    requires IsRun(states, steps) && n < |steps| && steps[n].Process?
    requires states[n].executing[steps[n].plan].rec.kind != Clustering
    requires steps[n].plan in states[n + 1].finished
    ensures
      var p, h := steps[n].plan, states[n + 1];
      && p in h.stored && Terminal(h.stored[p].state)
      && p in h.executing && h.executing[p].rec == h.stored[p]
      && h.stored[p].Inputs() !! h.locked
  {
    InOrder(states, steps, n);
    InOrder(states, steps, n + 1);
    var h, p, env := states[n], steps[n].plan, steps[n].env;
    assert states[n + 1] == Apply(h, steps[n]);
    ProcessDiscipline(h.executing[p], h.locked, env);
  }

  lemma StepKeepsTerminal(h: Handler, step: Step, p: PlanID)
    requires Shape(h) && Enabled(h, step)
    requires p in h.stored && h.stored[p].kind != Clustering && Terminal(h.stored[p].state)
    ensures p in Apply(h, step).stored && Apply(h, step).stored[p] == h.stored[p]
  {
  }

  /** Once a mix or level-zero task has stored a terminal state, its record never changes again. */
  lemma {:induction false} TerminalForever(states: seq<Handler>, steps: seq<Step>, m: nat, n: nat, p: PlanID)
    requires IsRun(states, steps) && m <= n < |states|
    requires p in states[m].stored && states[m].stored[p].kind != Clustering && Terminal(states[m].stored[p].state)
    ensures p in states[n].stored && states[n].stored[p] == states[m].stored[p]
    decreases n
  {
    if m == n {
    } else {
      TerminalForever(states, steps, m, n - 1, p);
      InOrder(states, steps, n - 1);
      assert states[n] == Apply(states[n - 1], steps[n - 1]);
      StepKeepsTerminal(states[n - 1], steps[n - 1], p);
    }
  }

  // ---------------------------------------------------------------- locks that nobody will release

  /** Flagged, but not on behalf of any live task. */
  ghost predicate Orphan(h: Handler, s: Segment) {
    s in h.locked && forall p :: Live(h, p) ==> s !in TaskOf(h, p).rec.inputs
  }

  /** Whether a step takes a live task with this input away and leaves the input flagged: when the task's channel is
      removed, or when the task is a clustering task that completes. */
  ghost predicate Abandons(h: Handler, step: Step, s: Segment) {
    match step
    case RemoveChannel(channel) =>
      exists p :: Live(h, p) && TaskOf(h, p).rec.channel == channel && s in TaskOf(h, p).rec.inputs
    case Process(p, env) =>
      && p in h.executing && h.executing[p].rec.kind == Clustering
      && env.clustering.Finish? && Possible(h.executing[p].rec.state, env.clustering)
      && s in h.executing[p].rec.inputs
    case _ => false
  }

  /** Where `h` is followed by `h'`: a segment flagged for nobody stays so, it becomes so only if `abandoned`, and while
      locks are kept exactly if. */
  ghost predicate OrphansFollow(h: Handler, h': Handler, abandoned: bool, s: Segment) {
    && (Orphan(h, s) ==> Orphan(h', s))
    && (Orphan(h', s) ==> Orphan(h, s) || abandoned)
    && (Locks(h) && abandoned ==> Orphan(h', s))
  }

  lemma RemoveChannelOrphansExactly(h: Handler, channel: Channel, s: Segment)
    requires Shape(h)
    ensures OrphansFollow(h, Apply(h, RemoveChannel(channel)), Abandons(h, RemoveChannel(channel), s), s)
  {
    var h' := Apply(h, RemoveChannel(channel));
    forall p ensures Live(h', p) <==> Live(h, p) && TaskOf(h, p).rec.channel != channel {
    }
    if Locks(h) {
      if p :| Live(h, p) && TaskOf(h, p).rec.channel == channel && s in TaskOf(h, p).rec.inputs {
        assert s in TaskOf(h, p).rec.Inputs();
        forall q | Live(h', q) ensures s !in TaskOf(h', q).rec.inputs {
          assert TaskOf(h, q).rec.Inputs() !! TaskOf(h, p).rec.Inputs();
        }
      }
    }
  }

  /** Enqueuing flags only what the new task owns. */
  lemma EnqueueOrphansNothing(h: Handler, rec: Record, known: set<Segment>, saved: bool, s: Segment)
    requires Shape(h) && GoodRequest(h, rec)
    ensures Orphan(Apply(h, Enqueue(rec, known, saved)), s) <==> Orphan(h, s)
  {
    var h' := Apply(h, Enqueue(rec, known, saved));
    if Admitted(h, rec, known, saved) {
      assert rec.planID !in h.queue && rec.planID !in h.executing && rec.planID !in h.finished;
      assert s in rec.inputs <==> s in rec.Inputs();
      assert Live(h', rec.planID) && TaskOf(h', rec.planID).rec == rec;
      assert forall p :: Live(h, p) ==> Live(h', p) && TaskOf(h', p) == TaskOf(h, p);
      assert forall p :: Live(h', p) && p != rec.planID ==> Live(h, p) && TaskOf(h', p) == TaskOf(h, p);
    }
  }

  lemma SameInputs(t: Task, locked: set<Segment>, env: Env)
    requires t.rec.kind != OtherKind && (t.rec.kind != Clustering ==> Known(t.rec.state))
    ensures ProcessTask(t, locked, env).task.rec.inputs == t.rec.inputs
  {
    if t.rec.kind != Clustering {
      ProcessDiscipline(t, locked, env);
    }
  }

  /** Processing a task does not touch what another one owns, nor a flag that nobody owns. */
  lemma OthersKeepTheirFlags(h: Handler, p: PlanID, env: Env, s: Segment)
    requires Shape(h) && Enabled(h, Process(p, env)) && s !in h.executing[p].rec.inputs
    ensures Orphan(Apply(h, Process(p, env)), s) <==> Orphan(h, s)
  {
    var h', t := Apply(h, Process(p, env)), h.executing[p];
    SameInputs(t, h.locked, env);
    assert s !in t.rec.Inputs();
    assert forall q :: Live(h', q) ==> Live(h, q) && TaskOf(h', q).rec.inputs == TaskOf(h, q).rec.inputs;
    assert forall q :: Live(h, q) && q != p ==> Live(h', q);
    assert s in h'.locked <==> s in h.locked;
    forall q | Live(h, q) && s in TaskOf(h, q).rec.inputs ensures !Orphan(h', s) {
      assert q != p && Live(h', q) && TaskOf(h', q) == TaskOf(h, q);
    }
  }

  /** A task keeps its own flags while it stays and takes them away when it leaves, unless it is a clustering task
      that completes. */
  lemma OwnFlagsLeaveToo(h: Handler, p: PlanID, env: Env, s: Segment)
    requires Shape(h) && Enabled(h, Process(p, env)) && s in h.executing[p].rec.inputs
    ensures OrphansFollow(h, Apply(h, Process(p, env)), Abandons(h, Process(p, env), s), s)
  {
    var h', t := Apply(h, Process(p, env)), h.executing[p];
    var o := ProcessTask(t, h.locked, env);
    SameInputs(t, h.locked, env);
    assert Live(h, p) && TaskOf(h, p) == t && s in t.rec.Inputs();
    assert !o.done ==> Live(h', p) && s in TaskOf(h', p).rec.inputs;
    if t.rec.kind != Clustering {
      ProcessDiscipline(t, h.locked, env);
    } else if Locks(h) && o.done && !o.unlocked {
      forall q | Live(h', q) ensures s !in TaskOf(h', q).rec.inputs {
        assert Live(h, q) && q != p && TaskOf(h', q) == TaskOf(h, q);
        assert TaskOf(h, q).rec.Inputs() !! t.rec.Inputs();
      }
    }
  }

  lemma ProcessOrphansExactly(h: Handler, p: PlanID, env: Env, s: Segment)
    requires Shape(h) && Enabled(h, Process(p, env))
    ensures OrphansFollow(h, Apply(h, Process(p, env)), Abandons(h, Process(p, env), s), s)
  {
    if s in h.executing[p].rec.inputs {
      OwnFlagsLeaveToo(h, p, env, s);
    } else {
      OthersKeepTheirFlags(h, p, env, s);
    }
  }

  /** Whatever the locks: no step frees a segment flagged for nobody, and only abandoning its task leaves one so. While
      locks are kept, abandoning always does. */
  lemma StepOrphansExactly(h: Handler, step: Step, s: Segment)
    requires Shape(h) && Enabled(h, step)
    ensures Orphan(h, s) ==> Orphan(Apply(h, step), s)
    ensures Orphan(Apply(h, step), s) ==> Orphan(h, s) || Abandons(h, step, s)
    ensures Locks(h) ==> (Orphan(Apply(h, step), s) <==> Orphan(h, s) || Abandons(h, step, s))
  {
    match step {
      case Enqueue(rec, known, saved) => EnqueueOrphansNothing(h, rec, known, saved, s);
      case Schedule(picked) => ScheduleMoves(h, picked);
      case Process(p, env) => ProcessOrphansExactly(h, p, env, s);
      case RemoveChannel(channel) => RemoveChannelOrphansExactly(h, channel, s);
      case _ =>
        var h' := Apply(h, step);
        assert forall q :: Live(h', q) <==> Live(h, q);
        assert forall q :: Live(h', q) ==> TaskOf(h', q).rec.inputs == TaskOf(h, q).rec.inputs;
    }
  }

  /** A segment flagged for nobody stays so for the rest of the run. */
  lemma {:induction false} OrphanForever(states: seq<Handler>, steps: seq<Step>, m: nat, n: nat, s: Segment)
    requires IsRun(states, steps) && m <= n < |states| && Orphan(states[m], s)
    ensures Orphan(states[n], s)
    decreases n
  {
    if m == n {
    } else {
      OrphanForever(states, steps, m, n - 1, s);
      InOrder(states, steps, n - 1);
      assert states[n] == Apply(states[n - 1], steps[n - 1]);
      StepOrphansExactly(states[n - 1], steps[n - 1], s);
    }
  }

  ghost predicate AbandonedBefore(states: seq<Handler>, steps: seq<Step>, n: nat, s: Segment)
    requires Leads(states, steps) && n <= |steps|
  {
    exists i :: 0 <= i < n && Abandons(states[i], steps[i], s)
  }

  lemma {:induction false} OrphanWasAbandoned(states: seq<Handler>, steps: seq<Step>, n: nat, s: Segment)
    requires IsRun(states, steps) && n <= |steps| && Orphan(states[n], s)
    ensures AbandonedBefore(states, steps, n, s)
  {
    if n == 0 {
      assert false;
    } else {
      InOrder(states, steps, n - 1);
      assert states[n] == Apply(states[n - 1], steps[n - 1]);
      StepOrphansExactly(states[n - 1], steps[n - 1], s);
      if Orphan(states[n - 1], s) {
        OrphanWasAbandoned(states, steps, n - 1, s);
      }
    }
  }

  /** Over whole runs: a segment is flagged for nobody only if its task was abandoned at some time before, and, as
      long as no unlock has been forgotten, always if. */
  lemma OrphanExactlyWhen(states: seq<Handler>, steps: seq<Step>, n: nat, s: Segment)
    requires IsRun(states, steps) && n <= |steps|
    ensures Orphan(states[n], s) ==> AbandonedBefore(states, steps, n, s)
    ensures Faithful(states, steps, n) ==> (Orphan(states[n], s) <==> AbandonedBefore(states, steps, n, s))
  {
    if Orphan(states[n], s) {
      OrphanWasAbandoned(states, steps, n, s);
    }
    if Faithful(states, steps, n) && AbandonedBefore(states, steps, n, s) {
      var i :| 0 <= i < n && Abandons(states[i], steps[i], s);
      SafeThroughout(states, steps, i);
      assert states[i + 1] == Apply(states[i], steps[i]);
      StepOrphansExactly(states[i], steps[i], s);
      OrphanForever(states, steps, i + 1, n, s);
    }
  }

  /** So no later task that wants it is ever admitted. */
  lemma OrphanNeverAdmitted(states: seq<Handler>, steps: seq<Step>, m: nat, n: nat, s: Segment)
    requires IsRun(states, steps) && m <= n < |steps|
    requires Orphan(states[m], s) && steps[n].Enqueue? && s in steps[n].rec.inputs
    ensures states[n + 1] == states[n]
  {
    OrphanForever(states, steps, m, n, s);
    assert states[n + 1] == Apply(states[n], steps[n]);
    assert s in steps[n].rec.Inputs();
  }

  // ---------------------------------------------------------------- the task counter

  ghost predicate Counted(h: Handler) {
    h.count == |h.queue| + |h.executing|
  }

  /** The finished tasks, which the sweep will subtract, are still in the executing set. */
  ghost predicate Sweepable(h: Handler) {
    h.finished <= h.executing.Keys
  }

  lemma MapSize<T>(m: map<PlanID, T>, s: set<PlanID>)
    requires s <= m.Keys
    ensures |m - s| == |m| - |s|
  {
  }

  lemma SubsetBySize<T>(a: set<T>, b: set<T>)
    ensures |a * b| == |a| <==> a <= b
  {
    SplitSize(a, b);
    if |a - b| == 0 {
      forall x | x in a ensures x in b {
        assert x !in a - b;
      }
    } else {
      assert a - b != {};
    }
  }

  lemma SplitSize<T>(a: set<T>, b: set<T>)
    ensures |a| == |a * b| + |a - b|
  {
    assert a == a * b + (a - b);
  }

  lemma SweptSize<T>(m: map<PlanID, T>, s: set<PlanID>)
    ensures |m - s| == |m| - |s * m.Keys|
  {
    assert m - s == m - (s * m.Keys);
    MapSize(m, s * m.Keys);
  }

  /** The sweep leaves the counter right exactly when no task that finished was removed before it. */
  lemma SweepCountsExactlyWhen(h: Handler)
    requires Counted(h)
    ensures Counted(Apply(h, Sweep)) <==> Sweepable(h)
  {
    SweptSize(h.executing, h.finished);
    SubsetBySize(h.finished, h.executing.Keys);
  }

  lemma ScheduleKeepsCount(h: Handler, picked: set<PlanID>)
    requires Shape(h) && IsPick(h.queue, h.executing, picked) && Counted(h)
    ensures Counted(Apply(h, Schedule(picked)))
  {
  }

  lemma RemoveChannelKeepsCount(h: Handler, channel: Channel)
    requires Counted(h)
    ensures Counted(Apply(h, RemoveChannel(channel)))
  {
  }

  /** A finished task is removed with its channel before it is swept. */
  ghost predicate RemovesFinished(h: Handler, step: Step) {
    step.RemoveChannel? && !(h.finished !! OnChannel(h.executing, step.channel))
  }

  lemma RemovalSweepableExactlyWhen(h: Handler, channel: Channel)
    requires Sweepable(h)
    ensures Sweepable(Apply(h, RemoveChannel(channel))) <==> !RemovesFinished(h, RemoveChannel(channel))
  {
    var h', gone := Apply(h, RemoveChannel(channel)), OnChannel(h.executing, channel);
    assert h'.executing.Keys == h.executing.Keys - gone;
    if Sweepable(h') {
      forall p | p in h.finished ensures p !in gone {
        assert p in h'.executing.Keys;
      }
    }
    if h.finished !! gone {
      forall p | p in h.finished ensures p in h'.executing.Keys {
      }
    }
  }

  lemma EnqueueKeepsCount(h: Handler, rec: Record, known: set<Segment>, saved: bool)
    requires Shape(h) && GoodRequest(h, rec) && Counted(h)
    ensures Counted(Apply(h, Enqueue(rec, known, saved)))
  {
    assert rec.planID !in h.queue;
  }

  lemma MovedKeepsCount(h: Handler, h': Handler, p: PlanID)
    requires OneTaskMoved(h, h', p) && h'.count == h.count && Counted(h) && Sweepable(h)
    ensures Counted(h') && Sweepable(h')
  {
    assert |h'.executing| == |h'.executing.Keys| == |h.executing.Keys| == |h.executing|;
  }

  /** The counter stays right, now and after the next sweep, if and only if the step removes no finished task. */
  lemma StepCountsExactlyWhen(h: Handler, step: Step)
    requires Shape(h) && Enabled(h, step) && Counted(h) && Sweepable(h)
    ensures Counted(Apply(h, step)) && Sweepable(Apply(h, step)) <==> !RemovesFinished(h, step)
  {
    match step {
      case Enqueue(rec, known, saved) =>
        EnqueueKeepsCount(h, rec, known, saved);
      case Schedule(picked) =>
        ScheduleMoves(h, picked);
        ScheduleKeepsCount(h, picked);
      case Sweep =>
        SweepCountsExactlyWhen(h);
      case RemoveChannel(channel) =>
        RemoveChannelKeepsCount(h, channel);
        RemovalSweepableExactlyWhen(h, channel);
      case Assign(p, _) =>
        MovedKeepsCount(h, Apply(h, step), p);
      case Process(p, env) =>
        ProcessMoves(h, p, env);
        MovedKeepsCount(h, Apply(h, step), p);
    }
  }

  /** So it counts them in every state of a run in which no finished task is removed before the sweep. */
  lemma {:induction false} CountedThroughout(states: seq<Handler>, steps: seq<Step>, n: nat)
    requires IsRun(states, steps) && n <= |steps|
    requires forall i :: 0 <= i < n ==> !RemovesFinished(states[i], steps[i])
    ensures Counted(states[n]) && Sweepable(states[n])
  {
    if n == 0 {
    } else {
      CountedThroughout(states, steps, n - 1);
      InOrder(states, steps, n - 1);
      assert states[n] == Apply(states[n - 1], steps[n - 1]);
      StepCountsExactlyWhen(states[n - 1], steps[n - 1]);
    }
  }

  /** And only in those: in every state it counts them, and the next sweep will, if and only if no finished task is
      removed before its sweep. */
  lemma CountedExactlyWhen(states: seq<Handler>, steps: seq<Step>)
    requires IsRun(states, steps)
    ensures (forall n :: 0 <= n < |states| ==> Counted(states[n]) && Sweepable(states[n]))
      <==> (forall i :: 0 <= i < |steps| ==> !RemovesFinished(states[i], steps[i]))
  {
    if forall i :: 0 <= i < |steps| ==> !RemovesFinished(states[i], steps[i]) {
      forall n | 0 <= n < |states| ensures Counted(states[n]) && Sweepable(states[n]) {
        CountedThroughout(states, steps, n);
      }
    }
    if forall n :: 0 <= n < |states| ==> Counted(states[n]) && Sweepable(states[n]) {
      forall i | 0 <= i < |steps| ensures !RemovesFinished(states[i], steps[i]) {
        InOrder(states, steps, i);
        assert Counted(states[i]) && Counted(states[i + 1]) && Sweepable(states[i + 1]);
        assert states[i + 1] == Apply(states[i], steps[i]);
        StepCountsExactlyWhen(states[i], steps[i]);
      }
    }
  }
}
