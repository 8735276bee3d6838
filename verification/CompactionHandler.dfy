/** The compaction handler as the object it is: maps of tasks, a counter, and the passes over them. Every method is
    tied to steps of the state machine in `CompactionRuns`. */
module CompactionHandler {
  import opened CompactionTasks
  import opened CompactionRuns
  import opened CompactionObjects
  import opened Orders

  // ---------------------------------------------------------------- what the scheduler remembers

  datatype Excludes = Excludes(
    l0Channels: set<Channel>,
    mixChannels: set<Channel>,
    clusterChannels: set<Channel>,
    mixLabels: set<(int, Channel)>,
    clusterLabels: set<(int, Channel)>)
  {
    function Insert(t: Record): Excludes {
      match t.kind
      case Level0 => this.(l0Channels := l0Channels + {t.channel})
      case Mix => this.(mixChannels := mixChannels + {t.channel}, mixLabels := mixLabels + {t.Label()})
      case Clustering =>
        this.(clusterChannels := clusterChannels + {t.channel}, clusterLabels := clusterLabels + {t.Label()})
      case OtherKind => this
    }

    predicate Skips(t: Record) {
      match t.kind
      case Level0 => t.channel in l0Channels || t.channel in mixChannels
      case Mix => t.channel in l0Channels
      case Clustering => t.channel in l0Channels || t.Label() in mixLabels || t.Label() in clusterLabels
      case OtherKind => true
    }
  }

  /** Remembering a task makes exactly those skipped that it blocks. */
  lemma InsertSkips(ex: Excludes, q: Record, t: Record)
    ensures ex.Insert(q).Skips(t) <==> ex.Skips(t) || Blocks(q, t)
  {
  }

  // ---------------------------------------------------------------- orders

  ghost predicate Ascending(s: seq<PlanID>) {
    forall i, j :: 0 <= i < j < |s| ==> s[i] < s[j]
  }

  method InsertSorted(s: seq<PlanID>, x: PlanID) returns (r: seq<PlanID>)
    requires Ascending(s) && x !in s
    ensures Ascending(r)
    ensures forall y :: y in r <==> y in s || y == x
  {
    var i := 0;
    while i < |s| && s[i] < x
      invariant 0 <= i <= |s|
      invariant forall k :: 0 <= k < i ==> s[k] < x
    {
      i := i + 1;
    }
    r := s[..i] + [x] + s[i..];
  }

  method SortKeys(keys: seq<PlanID>) returns (r: seq<PlanID>)
    requires forall i, j :: 0 <= i < j < |keys| ==> keys[i] != keys[j]
    ensures Ascending(r)
    ensures forall x :: x in r <==> x in keys
    ensures forall i :: 0 <= i < |r| ==> r[i] in keys
  {
    r := [];
    for i := 0 to |keys|
      invariant Ascending(r)
      invariant forall x :: x in r <==> x in keys[..i]
    {
      r := InsertSorted(r, keys[i]);
    }
    assert keys[..|keys|] == keys;
  }

  // ---------------------------------------------------------------- picking, one key after the other

  lemma AppendAscending(s: seq<PlanID>, x: PlanID)
    requires Ascending(s) && forall q :: q in Members(s) ==> q < x
    ensures Ascending(s + [x]) && Members(s + [x]) == Members(s) + {x}
  {
    assert forall i :: 0 <= i < |s| ==> s[i] in Members(s);
  }

  ghost predicate BlockedByPicked(queue: map<PlanID, Task>, picked: set<PlanID>, t: Record) {
    exists q :: q in picked && q in queue && Blocks(queue[q].rec, t)
  }

  /** The exclude sets decide exactly as `Blocks` does against everything executing or picked. */
  ghost predicate Guards(ex: Excludes, queue: map<PlanID, Task>, executing: map<PlanID, Task>, picked: set<PlanID>) {
    forall t: Record :: ex.Skips(t) <==> BlockedByExecuting(executing, t) || BlockedByPicked(queue, picked, t)
  }

  lemma GuardsAfter(
    ex: Excludes, queue: map<PlanID, Task>, executing: map<PlanID, Task>, picked: set<PlanID>, p: PlanID)
    requires Guards(ex, queue, executing, picked) && p in queue
    ensures Guards(ex.Insert(queue[p].rec), queue, executing, picked + {p})
  {
  }

  ghost predicate BlockedByFirst(executing: map<PlanID, Task>, order: seq<PlanID>, i: nat, t: Record)
    requires i <= |order| && forall k :: 0 <= k < |order| ==> order[k] in executing
  {
    exists k :: 0 <= k < i && Blocks(executing[order[k]].rec, t)
  }

  /** The same, while the executing tasks are still being collected. */
  ghost predicate GuardsFirst(ex: Excludes, executing: map<PlanID, Task>, order: seq<PlanID>, i: nat)
    requires i <= |order| && forall k :: 0 <= k < |order| ==> order[k] in executing
  {
    forall t: Record :: ex.Skips(t) <==> t.kind == OtherKind || BlockedByFirst(executing, order, i, t)
  }

  lemma GuardsNext(ex: Excludes, executing: map<PlanID, Task>, order: seq<PlanID>, i: nat)
    requires i < |order| && forall k :: 0 <= k < |order| ==> order[k] in executing
    requires GuardsFirst(ex, executing, order, i)
    ensures GuardsFirst(ex.Insert(executing[order[i]].rec), executing, order, i + 1)
  {
  }

  lemma GuardsAll(ex: Excludes, queue: map<PlanID, Task>, executing: map<PlanID, Task>, order: seq<PlanID>)
    requires Enumerates(order, executing.Keys)
    requires GuardsFirst(ex, executing, order, |order|)
    ensures Guards(ex, queue, executing, {})
  {
  }

  ghost predicate Clear(queue: map<PlanID, Task>, executing: map<PlanID, Task>, picked: set<PlanID>, p: PlanID)
    requires p in queue
  {
    !BlockedByExecuting(executing, queue[p].rec) && !BlockedByEarlier(queue, picked, p, queue[p].rec)
  }

  /** The first `i` keys have been picked from, rightly. */
  ghost predicate Decided(
    queue: map<PlanID, Task>, executing: map<PlanID, Task>, picked: set<PlanID>, keys: seq<PlanID>, i: nat)
  {
    && i <= |keys|
    && Ascending(keys) && (forall k :: 0 <= k < |keys| ==> keys[k] in queue)
    && (forall p :: p in picked ==> p in keys[..i])
    && (forall k :: 0 <= k < i ==> (keys[k] in picked <==> Clear(queue, executing, picked, keys[k])))
  }

  lemma ClearWhenNotSkipped(
    ex: Excludes, queue: map<PlanID, Task>, executing: map<PlanID, Task>, picked: set<PlanID>, p: PlanID)
    requires Guards(ex, queue, executing, picked)
    requires p in queue && forall q :: q in picked ==> q < p
    ensures Clear(queue, executing, picked, p) <==> !ex.Skips(queue[p].rec)
  {
  }

  lemma DecideNext(
    queue: map<PlanID, Task>, executing: map<PlanID, Task>, picked: set<PlanID>, keys: seq<PlanID>, i: nat)
    requires Decided(queue, executing, picked, keys, i) && i < |keys|
    ensures
      var picked' := if Clear(queue, executing, picked, keys[i]) then picked + {keys[i]} else picked;
      Decided(queue, executing, picked', keys, i + 1)
    ensures forall q :: q in picked ==> q in queue && q < keys[i]
  {
  }

  lemma DecidedAll(queue: map<PlanID, Task>, executing: map<PlanID, Task>, picked: set<PlanID>, keys: seq<PlanID>)
    requires Decided(queue, executing, picked, keys, |keys|) && forall p :: p in queue ==> p in keys
    ensures IsPick(queue, executing, picked)
  {
    assert keys[..|keys|] == keys;
    forall p | p in picked ensures p in queue.Keys {
      assert p in keys;
    }
    forall p | p in queue ensures p in picked <==> Clear(queue, executing, picked, p) {
      assert p in keys;
    }
  }

  // ---------------------------------------------------------------- the handler

  lemma AllGone(was: map<PlanID, Task>, order: seq<PlanID>, channel: Channel, gone: set<PlanID>)
    requires Enumerates(order, was.Keys)
    requires forall p :: p in gone ==> p in was && was[p].rec.channel == channel
    requires forall k :: 0 <= k < |order| && was[order[k]].rec.channel == channel ==> order[k] in gone
    ensures gone == OnChannel(was, channel)
  {
    forall p ensures p in OnChannel(was, channel) <==> p in gone {
      if p in was {
        assert p in order;
      }
    }
  }

  datatype EnqueueError = IllegalType | SegmentNotExist | SegmentIsCompacting | SaveFailed

  datatype EnqueueResult = Enqueued | Rejected(error: EnqueueError)

  /** What a request is told, by the first thing that is wrong with it. */
  ghost function Answer(request: Record, known: set<Segment>, locked: set<Segment>, saved: bool): EnqueueResult {
    if request.kind == OtherKind then Rejected(IllegalType)
    else if !(request.Inputs() <= known) then Rejected(SegmentNotExist)
    else if !(request.Inputs() !! locked) then Rejected(SegmentIsCompacting)
    else if !saved then Rejected(SaveFailed)
    else Enqueued
  }

  /** A request is told the first thing that is wrong with it, in this order: its kind, an input that does not exist, an
      input that is being compacted, a record that cannot be saved. It is enqueued exactly if nothing is. */
  lemma AnswerMeans(request: Record, known: set<Segment>, locked: set<Segment>, saved: bool)
    ensures
      var a := Answer(request, known, locked, saved);
      var exist := forall s :: s in request.inputs ==> s in known;
      var free := forall s :: s in request.inputs ==> s !in locked;
      && (a == Rejected(IllegalType) <==> request.kind == OtherKind)
      && (a == Rejected(SegmentNotExist) <==> request.kind != OtherKind && !exist)
      && (a == Rejected(SegmentIsCompacting) <==> request.kind != OtherKind && exist && !free)
      && (a == Rejected(SaveFailed) <==> request.kind != OtherKind && exist && free && !saved)
      && (a == Enqueued <==> request.kind != OtherKind && exist && free && saved)
  {
    if exists s :: s in request.inputs && s !in known {
      var s :| s in request.inputs && s !in known;
      assert s in request.Inputs();
    } else {
      assert request.Inputs() <= known;
    }
    if exists s :: s in request.inputs && s in locked {
      var s :| s in request.inputs && s in locked;
      assert s in request.Inputs();
    } else {
      assert forall s :: s in request.Inputs() ==> s !in locked;
    }
  }

  ghost predicate Holds(t: CompactionTask, meta: Meta, value: Task, p: PlanID)
    reads t
  {
    t.meta == meta && t.rec.planID == p && t.Valid() && t.View() == value
  }

  /** The objects in `held` are in `tasks`, and hold these values. */
  ghost predicate Tied(
    held: map<PlanID, CompactionTask>, values: map<PlanID, Task>, tasks: set<CompactionTask>, meta: Meta)
    reads tasks
  {
    && held.Keys == values.Keys
    && forall p :: p in held ==> held[p] in tasks && Holds(held[p], meta, values[p], p)
  }

  lemma TiedPart(
    held: map<PlanID, CompactionTask>, values: map<PlanID, Task>, tasks: set<CompactionTask>, meta: Meta,
    s: set<PlanID>)
    requires Tied(held, values, tasks, meta) && s <= held.Keys
    ensures Tied(Part(held, s), Part(values, s), tasks, meta)
  {
  }

  lemma TiedWithout(
    held: map<PlanID, CompactionTask>, values: map<PlanID, Task>, tasks: set<CompactionTask>, meta: Meta,
    s: set<PlanID>)
    requires Tied(held, values, tasks, meta)
    ensures Tied(held - s, values - s, tasks, meta)
  {
  }

  lemma TiedTogether(
    a: map<PlanID, CompactionTask>, va: map<PlanID, Task>, b: map<PlanID, CompactionTask>, vb: map<PlanID, Task>,
    tasks: set<CompactionTask>, meta: Meta)
    requires Tied(a, va, tasks, meta) && Tied(b, vb, tasks, meta)
    ensures Tied(a + b, va + vb, tasks, meta)
  {
  }

  // ---------------------------------------------------------------- slots

  datatype Usage = Usage(mix: int, level0: int, clustering: int) {
    function Of(kind: Kind): int {
      match kind
      case Mix => mix
      case Level0 => level0
      case Clustering => clustering
      case OtherKind => 0
    }

    predicate Sane() {
      mix >= 0 && level0 >= 0 && clustering >= 0
    }
  }

  /** What one task meets in a pass: the order in which the nodes are looked at for it, whether saving its node works,
      and what its call of `Process` meets, with the order in which the segment table is read. */
  datatype Call = Call(nodeOrder: seq<NodeID>, nodeSaved: bool, env: Env, table: seq<Segment>)

  ghost predicate Answers(calls: map<PlanID, Call>, plans: set<PlanID>, slots: map<NodeID, int>) {
    forall p :: p in plans ==>
      p in calls && Enumerates(calls[p].nodeOrder, slots.Keys) && Members(calls[p].table) == calls[p].env.segments.Keys
  }

  predicate Enough(free: int, use: int) {
    free >= use && free > -1
  }

  /** The pick: a node with enough slots, and none has more; or none has enough. */
  ghost predicate MostFree(slots: map<NodeID, int>, use: int, node: NodeID) {
    || (node in slots && Enough(slots[node], use) && forall n :: n in slots ==> slots[n] <= slots[node])
    || (node == NULL_NODE && NoneHasEnough(slots, use))
  }

  method PickAnyNode(slots: map<NodeID, int>, order: seq<NodeID>, use: int) returns (node: NodeID)
    requires Enumerates(order, slots.Keys)
    ensures MostFree(slots, use, node)
    ensures node in slots && node != NULL_NODE ==>
      slots[node] >= use && slots[node] >= 0 && forall n :: n in slots ==> slots[n] <= slots[node]
    ensures node !in slots ==> node == NULL_NODE && forall n :: n in slots ==> slots[n] < use || slots[n] < 0
  {
    node := NULL_NODE;
    var maxSlots, found := -1, false;
    for i := 0 to |order|
      invariant
        if found then node in slots && slots[node] == maxSlots && Enough(maxSlots, use)
        else node == NULL_NODE && maxSlots == -1
      invariant forall k :: 0 <= k < i && Enough(slots[order[k]], use) ==> found && slots[order[k]] <= maxSlots
    {
      var id := order[i];
      if slots[id] >= use && slots[id] > maxSlots {
        node, maxSlots, found := id, slots[id], true;
      }
    }
    forall n | n in slots && Enough(slots[n], use) ensures found && slots[n] <= maxSlots {
      assert n in order;
    }
  }

  /** The slots that the first `k` assignments use on a node. */
  ghost function Spent(steps: seq<Step>, k: nat, executing: map<PlanID, Task>, usage: Usage, node: NodeID): int
    requires k <= |steps| && Assigns(steps, executing)
  {
    if k == 0 then 0
    else
      Spent(steps, k - 1, executing, usage, node)
      + if steps[k - 1].node == node then usage.Of(executing[steps[k - 1].plan].rec.kind) else 0
  }

  /** How many of the first `k` assignments send a task of this kind to a node. */
  ghost function SentTo(steps: seq<Step>, k: nat, executing: map<PlanID, Task>, kind: Kind, node: NodeID): nat
    requires k <= |steps| && Assigns(steps, executing)
  {
    if k == 0 then 0
    else
      var sent := steps[k - 1].node == node && executing[steps[k - 1].plan].rec.kind == kind;
      SentTo(steps, k - 1, executing, kind, node) + if sent then 1 else 0
  }

  /** A node is charged for every task sent to it, each kind at its own rate. */
  lemma {:induction false} SpentByKind(
    steps: seq<Step>, k: nat, executing: map<PlanID, Task>, usage: Usage, node: NodeID)
    requires k <= |steps| && Assigns(steps, executing)
    ensures Spent(steps, k, executing, usage, node) ==
      usage.mix * SentTo(steps, k, executing, Mix, node) + usage.level0 * SentTo(steps, k, executing, Level0, node)
      + usage.clustering * SentTo(steps, k, executing, Clustering, node)
  {
    if k == 0 {
    } else {
      SpentByKind(steps, k - 1, executing, usage, node);
      OneMore(usage.mix, SentTo(steps, k - 1, executing, Mix, node));
      OneMore(usage.level0, SentTo(steps, k - 1, executing, Level0, node));
      OneMore(usage.clustering, SentTo(steps, k - 1, executing, Clustering, node));
    }
  }

  lemma OneMore(rate: int, n: nat)
    ensures rate * (n + 1) == rate * n + rate
  {
  }

  lemma {:induction false} SpentPrefix(
    steps: seq<Step>, step: Step, k: nat, executing: map<PlanID, Task>, usage: Usage, node: NodeID)
    requires k <= |steps| && Assigns(steps, executing) && Assigns(steps + [step], executing)
    ensures Spent(steps + [step], k, executing, usage, node) == Spent(steps, k, executing, usage, node)
  {
    if k == 0 {
    } else {
      SpentPrefix(steps, step, k - 1, executing, usage, node);
    }
  }

  ghost predicate Assigns(steps: seq<Step>, executing: map<PlanID, Task>) {
    forall j :: 0 <= j < |steps| ==> steps[j].Assign? && steps[j].plan in executing
  }

  /** What a node has free before the `j`-th assignment. */
  ghost function Free(
    slots: map<NodeID, int>, steps: seq<Step>, j: nat, executing: map<PlanID, Task>, usage: Usage, node: NodeID): int
    requires j <= |steps| && Assigns(steps, executing) && node in slots
  {
    slots[node] - Spent(steps, j, executing, usage, node)
  }

  /** The `j`-th assignment goes to a node with enough free slots, and none has more. */
  ghost predicate PicksMostFree(
    slots: map<NodeID, int>, steps: seq<Step>, j: nat, executing: map<PlanID, Task>, usage: Usage)
    requires j < |steps| && Assigns(steps, executing)
  {
    && steps[j].node in slots
    && Enough(Free(slots, steps, j, executing, usage, steps[j].node), usage.Of(executing[steps[j].plan].rec.kind))
    && forall n :: n in slots ==>
         Free(slots, steps, j, executing, usage, n) <= Free(slots, steps, j, executing, usage, steps[j].node)
  }

  /** Every assignment is a good pick, what is left of the slots is what they did not use, and so no node was given
      more than it had free. */
  ghost predicate Accounted(
    slots: map<NodeID, int>, left: map<NodeID, int>, steps: seq<Step>, executing: map<PlanID, Task>, usage: Usage)
  {
    && Assigns(steps, executing)
    && (forall j :: 0 <= j < |steps| ==> PicksMostFree(slots, steps, j, executing, usage))
    && left.Keys == slots.Keys
    && (forall n :: n in slots ==> left[n] == Free(slots, steps, |steps|, executing, usage, n))
    && (forall n :: n in slots ==> left[n] == slots[n] || 0 <= left[n])
  }

  lemma StillPicksMostFree(
    slots: map<NodeID, int>, steps: seq<Step>, step: Step, j: nat, executing: map<PlanID, Task>, usage: Usage)
    requires j < |steps| && Assigns(steps, executing) && Assigns(steps + [step], executing)
    requires PicksMostFree(slots, steps, j, executing, usage)
    ensures PicksMostFree(slots, steps + [step], j, executing, usage)
  {
    forall n | n in slots
      ensures Free(slots, steps + [step], j, executing, usage, n) == Free(slots, steps, j, executing, usage, n)
    {
      SpentPrefix(steps, step, j, executing, usage, n);
    }
  }

  lemma AccountNext(
    slots: map<NodeID, int>, left: map<NodeID, int>, steps: seq<Step>, executing: map<PlanID, Task>, usage: Usage,
    p: PlanID, node: NodeID)
    requires Accounted(slots, left, steps, executing, usage) && p in executing
    requires node in left && MostFree(left, usage.Of(executing[p].rec.kind), node)
      && Enough(left[node], usage.Of(executing[p].rec.kind))
    ensures
      Accounted(slots, left[node := left[node] - usage.Of(executing[p].rec.kind)],
        steps + [Assign(p, node)], executing, usage)
  {
    var more := steps + [Assign(p, node)];
    assert Assigns(more, executing);
    forall n | n in slots ensures Free(slots, more, |steps|, executing, usage, n) == left[n] {
      SpentPrefix(steps, Assign(p, node), |steps|, executing, usage, n);
    }
    forall j | 0 <= j < |more| ensures PicksMostFree(slots, more, j, executing, usage) {
      if j < |steps| {
        StillPicksMostFree(slots, steps, Assign(p, node), j, executing, usage);
      }
    }
  }

  /** The first `i` tasks of `order` are processed, each meeting its own answers. */
  ghost predicate Processes(steps: seq<Step>, order: seq<PlanID>, calls: map<PlanID, Call>, i: nat) {
    && |steps| == i <= |order|
    && forall k :: 0 <= k < i ==> order[k] in calls && steps[k] == Process(order[k], calls[order[k]].env)
  }

  lemma ProcessesNext(steps: seq<Step>, order: seq<PlanID>, calls: map<PlanID, Call>, i: nat)
    requires Processes(steps, order, calls, i) && i < |order| && order[i] in calls
    ensures Processes(steps + [Process(order[i], calls[order[i]].env)], order, calls, i + 1)
  {
  }

  ghost predicate IsAssigned(steps: seq<Step>, p: PlanID) {
    exists j :: 0 <= j < |steps| && steps[j].Assign? && steps[j].plan == p
  }

  ghost predicate NoneHasEnough(slots: map<NodeID, int>, use: int) {
    forall n :: n in slots ==> !Enough(slots[n], use)
  }

  /** Of the first `i` tasks, one whose save works is left without a node only if no node has enough free slots for
      it. */
  ghost predicate NoneLeftOut(
    ids: seq<PlanID>, calls: map<PlanID, Call>, i: nat, steps: seq<Step>, left: map<NodeID, int>,
    executing: map<PlanID, Task>, usage: Usage)
    requires i <= |ids| && forall k :: 0 <= k < |ids| ==> ids[k] in executing && ids[k] in calls
  {
    forall k :: 0 <= k < i && calls[ids[k]].nodeSaved ==>
      IsAssigned(steps, ids[k]) || NoneHasEnough(left, usage.Of(executing[ids[k]].rec.kind))
  }

  /** The same, of every task that needs a node. */
  ghost predicate AllServed(
    executing: map<PlanID, Task>, calls: map<PlanID, Call>, steps: seq<Step>, left: map<NodeID, int>, usage: Usage)
  {
    forall p :: p in executing && executing[p].rec.NeedsNode() ==>
      p in calls && (calls[p].nodeSaved ==>
        IsAssigned(steps, p) || NoneHasEnough(left, usage.Of(executing[p].rec.kind)))
  }

  lemma EveryoneServed(
    ids: seq<PlanID>, calls: map<PlanID, Call>, steps: seq<Step>, left: map<NodeID, int>,
    executing: map<PlanID, Task>, usage: Usage)
    requires forall k :: 0 <= k < |ids| ==> ids[k] in executing && ids[k] in calls
    requires NoneLeftOut(ids, calls, |ids|, steps, left, executing, usage)
    requires forall p :: p in executing && executing[p].rec.NeedsNode() ==> p in ids
    ensures AllServed(executing, calls, steps, left, usage)
  {
  }

  lemma NextNotLeftOut(
    ids: seq<PlanID>, calls: map<PlanID, Call>, i: nat,
    earlier: seq<Step>, more: map<NodeID, int>, steps: seq<Step>, left: map<NodeID, int>,
    executing: map<PlanID, Task>, usage: Usage)
    requires i < |ids| && forall k :: 0 <= k < |ids| ==> ids[k] in executing && ids[k] in calls
    requires NoneLeftOut(ids, calls, i, earlier, more, executing, usage)
    requires earlier <= steps && left.Keys == more.Keys && forall n :: n in more ==> left[n] <= more[n]
    requires calls[ids[i]].nodeSaved ==>
        IsAssigned(steps, ids[i]) || NoneHasEnough(left, usage.Of(executing[ids[i]].rec.kind))
    ensures NoneLeftOut(ids, calls, i + 1, steps, left, executing, usage)
  {
  }

  ghost predicate Traced(states: seq<Handler>, steps: seq<Step>, from: Handler, end: Handler) {
    Leads(states, steps) && states[0] == from && states[|steps|] == end
  }

  lemma ExtendTrace(states: seq<Handler>, steps: seq<Step>, from: Handler, h: Handler, step: Step)
    requires Traced(states, steps, from, h) && Enabled(h, step)
    ensures Traced(states + [Apply(h, step)], steps + [step], from, Apply(h, step))
  {
  }

  lemma JoinTraces(
    states: seq<Handler>, steps: seq<Step>, from: Handler, h: Handler, states': seq<Handler>, steps': seq<Step>,
    end: Handler)
    requires Traced(states, steps, from, h) && Traced(states', steps', h, end)
    ensures Traced(states[..|steps|] + states', steps + steps', from, end)
  {
  }

  // ---------------------------------------------------------------- task objects

  lemma TiedMove(
    q: map<PlanID, CompactionTask>, vq: map<PlanID, Task>, e: map<PlanID, CompactionTask>, ve: map<PlanID, Task>,
    tasks: set<CompactionTask>, meta: Meta, s: set<PlanID>)
    requires Tied(q, vq, tasks, meta) && Tied(e, ve, tasks, meta) && vq.Keys !! ve.Keys && s <= vq.Keys
    ensures Tied(q - s, vq - s, tasks, meta)
    ensures Tied(e + Part(q, s), ve + Part(vq, s), tasks, meta)
    ensures (vq - s).Keys !! (ve + Part(vq, s)).Keys
  {
    TiedPart(q, vq, tasks, meta, s);
    TiedTogether(e, ve, Part(q, s), Part(vq, s), tasks, meta);
    TiedWithout(q, vq, tasks, meta, s);
  }

  // A task is set aside while it changes, and put back.

  lemma SetAside(
    held: map<PlanID, CompactionTask>, values: map<PlanID, Task>, tasks: set<CompactionTask>, meta: Meta,
    t: CompactionTask)
    requires Tied(held, values, tasks, meta) && t.rec.planID !in held
    ensures Tied(held, values, tasks - {t}, meta)
  {
  }

  lemma SetAsideOne(
    held: map<PlanID, CompactionTask>, values: map<PlanID, Task>, tasks: set<CompactionTask>, meta: Meta, p: PlanID)
    requires Tied(held, values, tasks, meta) && p in held
    ensures Tied(held - {p}, values - {p}, tasks - {held[p]}, meta)
  {
  }

  lemma PutBack(
    held: map<PlanID, CompactionTask>, values: map<PlanID, Task>, tasks: set<CompactionTask>, meta: Meta,
    t: CompactionTask)
    requires Tied(held, values, tasks - {t}, meta)
    ensures Tied(held, values, tasks, meta)
  {
  }

  lemma PutBackOne(
    held: map<PlanID, CompactionTask>, values: map<PlanID, Task>, tasks: set<CompactionTask>, meta: Meta, p: PlanID)
    requires p in held && held[p] in tasks && held.Keys == values.Keys
    requires Tied(held - {p}, values - {p}, tasks - {held[p]}, meta)
    requires held[p].meta == meta && held[p].rec.planID == p && held[p].Valid()
    ensures Tied(held, values[p := held[p].View()], tasks, meta)
  {
    forall q | q in held && q != p ensures held[q] in tasks && Holds(held[q], meta, values[q], q) {
      assert q in held - {p};
    }
  }

  method With(held: map<PlanID, CompactionTask>, others: map<PlanID, CompactionTask>, ids: seq<PlanID>)
    returns (both: map<PlanID, CompactionTask>)
    requires Members(ids) <= others.Keys
    ensures both == held + Part(others, Members(ids))
  {
    both := held;
    for i := 0 to |ids|
      invariant both.Keys == held.Keys + Members(ids[..i])
      invariant forall p :: p in both ==> both[p] == if p in Members(ids[..i]) then others[p] else held[p]
    {
      assert ids[i] in Members(ids);
      assert Members(ids[..i + 1]) == Members(ids[..i]) + {ids[i]};
      both := both[ids[i] := others[ids[i]]];
    }
    assert ids[..|ids|] == ids;
    ghost var all := held + Part(others, Members(ids));
    assert both.Keys == all.Keys;
    assert forall p :: p in all ==> both[p] == all[p];
  }

  method Without(held: map<PlanID, CompactionTask>, ids: seq<PlanID>) returns (left: map<PlanID, CompactionTask>)
    ensures left == held - Members(ids)
  {
    left := held;
    for i := 0 to |ids|
      invariant left == held - Members(ids[..i])
    {
      assert Members(ids[..i + 1]) == Members(ids[..i]) + {ids[i]};
      left := left - {ids[i]};
    }
    assert ids[..|ids|] == ids;
  }

  /** Both task maps after these tasks have gone over from the first to the second. */
  method MoveBetween(
    q: map<PlanID, CompactionTask>, e: map<PlanID, CompactionTask>, ids: seq<PlanID>,
    ghost vq: map<PlanID, Task>, ghost ve: map<PlanID, Task>, ghost tasks: set<CompactionTask>, ghost meta: Meta)
    returns (left: map<PlanID, CompactionTask>, both: map<PlanID, CompactionTask>,
             ghost vleft: map<PlanID, Task>, ghost vboth: map<PlanID, Task>)
    requires Tied(q, vq, tasks, meta) && Tied(e, ve, tasks, meta) && vq.Keys !! ve.Keys && Members(ids) <= vq.Keys
    ensures Tied(left, vleft, tasks, meta) && Tied(both, vboth, tasks, meta) && vleft.Keys !! vboth.Keys
    ensures vleft == vq - Members(ids) && vboth == ve + Part(vq, Members(ids))
  {
    vleft, vboth := vq - Members(ids), ve + Part(vq, Members(ids));
    TiedMove(q, vq, e, ve, tasks, meta, Members(ids));
    both := With(e, q, ids);
    left := Without(q, ids);
  }

  /** What is left of a task map, and how many tasks were dropped from it. */
  method WithoutChannel(
    held: map<PlanID, CompactionTask>, channel: Channel, order: seq<PlanID>,
    ghost values: map<PlanID, Task>, ghost tasks: set<CompactionTask>, ghost meta: Meta)
    returns (left: map<PlanID, CompactionTask>, dropped: nat)
    requires Tied(held, values, tasks, meta) && Enumerates(order, values.Keys)
    ensures left == held - OnChannel(values, channel) && dropped == |OnChannel(values, channel)|
    ensures Tied(left, values - OnChannel(values, channel), tasks, meta)
  {
    ghost var gone := {};
    left, dropped := held, 0;
    for i := 0 to |order|
      invariant left == held - gone && dropped == |gone|
      invariant forall p :: p in gone ==> p in values && values[p].rec.channel == channel
      invariant forall k :: 0 <= k < i && values[order[k]].rec.channel == channel ==> order[k] in gone
      invariant forall k :: i <= k < |order| ==> order[k] !in gone
    {
      if left[order[i]].rec.channel == channel {
        left, dropped, gone := left - {order[i]}, dropped + 1, gone + {order[i]};
      }
    }
    AllGone(values, order, channel, gone);
    TiedWithout(held, values, tasks, meta, gone);
  }

  class CompactionPlanHandler {
    const meta: Meta
    var queueTasks: map<PlanID, CompactionTask>
    var executingTasks: map<PlanID, CompactionTask>
    var taskNumber: int

    // The tasks of both maps, and what they hold.
    ghost var tasks: set<CompactionTask>
    ghost var queue: map<PlanID, Task>
    ghost var executing: map<PlanID, Task>

    ghost predicate Valid()
      reads this, tasks
    {
      && queue.Keys !! executing.Keys
      && Tied(queueTasks, queue, tasks, meta)
      && Tied(executingTasks, executing, tasks, meta)
    }

    /** The state this object is in, given the tasks that have finished in the current pass. */
    ghost function View(finished: set<PlanID>): Handler
      reads this, meta
    {
      Handler(queue, executing, finished, taskNumber, meta.compacting, meta.stored)
    }

    constructor (meta: Meta)
      requires meta.compacting == {} && meta.stored == map[]
      ensures this.meta == meta && Valid() && View({}) == EMPTY
    {
      this.meta := meta;
      queueTasks, executingTasks, taskNumber := map[], map[], 0;
      tasks, queue, executing := {}, map[], map[];
    }

    method CollectExcludes(order: seq<PlanID>) returns (ex: Excludes)
      requires Valid() && Enumerates(order, executing.Keys)
      ensures Guards(ex, queue, executing, {})
    {
      ex := Excludes({}, {}, {}, {}, {});
      for i := 0 to |order|
        invariant GuardsFirst(ex, executing, order, i)
      {
        GuardsNext(ex, executing, order, i);
        ex := ex.Insert(executingTasks[order[i]].rec);
      }
      GuardsAll(ex, queue, executing, order);
    }

    /** Picks, in plan ID order, every queued task that nothing executing and nothing picked before it blocks. */
    method Schedule(execOrder: seq<PlanID>, queueOrder: seq<PlanID>) returns (picked: seq<PlanID>)
      requires Valid()
      requires Enumerates(execOrder, executing.Keys) && Enumerates(queueOrder, queue.Keys)
      ensures Ascending(picked)
      ensures IsPick(queue, executing, Members(picked))
    {
      ghost var chosen := {};
      var ex := CollectExcludes(execOrder);
      var keys := SortKeys(queueOrder);
      picked := [];
      for i := 0 to |keys|
        invariant Ascending(picked) && chosen == Members(picked)
        invariant Decided(queue, executing, chosen, keys, i)
        invariant Guards(ex, queue, executing, chosen)
      {
        var t := queueTasks[keys[i]].rec;
        DecideNext(queue, executing, chosen, keys, i);
        ClearWhenNotSkipped(ex, queue, executing, chosen, keys[i]);
        if !ex.Skips(t) {
          GuardsAfter(ex, queue, executing, chosen, keys[i]);
          AppendAscending(picked, keys[i]);
          picked, ex, chosen := picked + [keys[i]], ex.Insert(t), chosen + {keys[i]};
        }
      }
      DecidedAll(queue, executing, chosen, keys);
    }

    method Move(ids: seq<PlanID>)
      requires Valid() && Members(ids) <= queue.Keys
      modifies this`queueTasks, this`executingTasks, this`queue, this`executing
      ensures Valid()
      ensures queue == old(queue) - Members(ids)
      ensures executing == old(executing) + Part(old(queue), Members(ids))
    {
      queueTasks, executingTasks, queue, executing :=
        MoveBetween(queueTasks, executingTasks, ids, queue, executing, tasks, meta);
    }

    /** Moves what `Schedule` picks from the queue to the executing set. */
    method DoSchedule(execOrder: seq<PlanID>, queueOrder: seq<PlanID>) returns (ghost picked: set<PlanID>)
      requires Valid()
      requires Enumerates(execOrder, executing.Keys) && Enumerates(queueOrder, queue.Keys)
      modifies this
      ensures Valid() && tasks == old(tasks)
      ensures Enabled(old(View({})), Step.Schedule(picked)) && View({}) == Apply(old(View({})), Step.Schedule(picked))
    {
      var ids := Schedule(execOrder, queueOrder);
      picked := Members(ids);
      Move(ids);
    }

    /** Takes the locks of a new task, all of them or none. */
    method CreateCompactTask(request: Record, known: set<Segment>) returns (result: EnqueueResult)
      modifies meta`compacting
      ensures result == Answer(request, known, old(meta.compacting), true)
      ensures meta.compacting ==
        if result == Enqueued then old(meta.compacting) + request.Inputs() else old(meta.compacting)
    {
      assert Members(request.inputs) == request.Inputs();
      if request.kind == OtherKind {
        return Rejected(IllegalType);
      }
      var exist, canDo := meta.CheckAndSetSegmentsCompacting(request.inputs, known);
      if !exist {
        return Rejected(SegmentNotExist);
      }
      if !canDo {
        return Rejected(SegmentIsCompacting);
      }
      return Enqueued;
    }

    method SubmitTask(t: CompactionTask)
      requires Valid() && t !in tasks && t.meta == meta && t.Valid()
      requires t.rec.planID !in queue && t.rec.planID !in executing
      modifies this
      ensures Valid() && tasks == old(tasks) + {t}
      ensures queue == old(queue)[t.rec.planID := t.View()] && executing == old(executing)
      ensures taskNumber == old(taskNumber) + 1
    {
      queueTasks := queueTasks[t.rec.planID := t];
      taskNumber := taskNumber + 1;
      queue, tasks := queue[t.rec.planID := t.View()], tasks + {t};
    }

    /** Rejects, leaving every flag as it was, unless the type is legal, the segments exist and none is being
        compacted; a task that cannot be saved gives its locks back. */
    method EnqueueCompaction(request: Record, now: int, known: set<Segment>, saved: bool)
      returns (result: EnqueueResult)
      requires Valid() && Processable(request) && request.planID !in queue && request.planID !in executing
      modifies this, meta
      ensures Valid() && fresh(tasks - old(tasks))
      ensures View({}) == AfterEnqueue(old(View({})), request.(startTime := now), known, saved)
      ensures result == Answer(request, known, old(meta.compacting), saved)
    {
      ghost var h := View({});
      var rec := request.(startTime := now);
      assert rec.Inputs() == request.Inputs() == Members(rec.inputs);
      result := CreateCompactTask(request, known);
      if result != Enqueued {
        return;
      }
      var t := new CompactionTask(meta, rec);
      meta.SaveCompactionTask(rec, saved);
      if !saved {
        meta.SetSegmentsCompacting(rec.inputs, false);
        assert meta.compacting == h.locked;
        return Rejected(SaveFailed);
      }
      SubmitTask(t);
    }

    method RemoveQueued(channel: Channel, order: seq<PlanID>)
      requires Valid() && Enumerates(order, queue.Keys)
      modifies this`queueTasks, this`taskNumber, this`queue
      ensures Valid()
      ensures queue == old(queue) - OnChannel(old(queue), channel)
      ensures taskNumber == old(taskNumber) - |OnChannel(old(queue), channel)|
    {
      var left, dropped := WithoutChannel(queueTasks, channel, order, queue, tasks, meta);
      queueTasks, taskNumber := left, taskNumber - dropped;
      queue := queue - OnChannel(queue, channel);
    }

    method RemoveExecuting(channel: Channel, order: seq<PlanID>)
      requires Valid() && Enumerates(order, executing.Keys)
      modifies this`executingTasks, this`taskNumber, this`executing
      ensures Valid()
      ensures executing == old(executing) - OnChannel(old(executing), channel)
      ensures taskNumber == old(taskNumber) - |OnChannel(old(executing), channel)|
    {
      var left, dropped := WithoutChannel(executingTasks, channel, order, executing, tasks, meta);
      executingTasks, taskNumber := left, taskNumber - dropped;
      executing := executing - OnChannel(executing, channel);
    }

    /** Drops every task of a channel; its segments stay flagged. */
    method RemoveTasksByChannel(channel: Channel, queueOrder: seq<PlanID>, execOrder: seq<PlanID>)
      requires Valid()
      requires Enumerates(execOrder, executing.Keys) && Enumerates(queueOrder, queue.Keys)
      modifies this
      ensures Valid() && tasks == old(tasks)
      ensures View({}) == Apply(old(View({})), RemoveChannel(channel))
    {
      RemoveQueued(channel, queueOrder);
      RemoveExecuting(channel, execOrder);
    }

    /** One task is given a node, if the store takes its record. */
    method AssignOne(p: PlanID, node: NodeID, ok: bool)
      requires Valid() && p in executing && executing[p].rec.NeedsNode()
      modifies this`executing, executingTasks[p], meta`stored
      ensures Valid()
      ensures View({}) == if ok then Apply(old(View({})), Assign(p, node)) else old(View({}))
    {
      var t := executingTasks[p];
      SetAside(queueTasks, queue, tasks, meta, t);
      SetAsideOne(executingTasks, executing, tasks, meta, p);
      t.SetNodeID(node, ok);
      PutBack(queueTasks, queue, tasks, meta, t);
      PutBackOne(executingTasks, executing, tasks, meta, p);
      assert t.View() == if ok then executing[p].(rec := executing[p].rec.(node := node)) else executing[p];
      executing := executing[p := t.View()];
    }

    /** One task is processed. */
    method ProcessOne(p: PlanID, env: Env, order: seq<Segment>, ghost finished: set<PlanID>) returns (done: bool)
      requires Valid() && p in executing && p !in finished
      requires Members(order) == env.segments.Keys
      modifies this`executing, executingTasks[p], meta
      ensures Valid()
      ensures View(if done then finished + {p} else finished) == Apply(old(View(finished)), Process(p, env))
    {
      var t := executingTasks[p];
      SetAside(queueTasks, queue, tasks, meta, t);
      SetAsideOne(executingTasks, executing, tasks, meta, p);
      done := t.Process(env, order);
      PutBack(queueTasks, queue, tasks, meta, t);
      PutBackOne(executingTasks, executing, tasks, meta, p);
      executing := executing[p := t.View()];
    }

    /** A task that needs a node gets the one with the most free slots, if that has enough of them. */
    method TryAssign(p: PlanID, slots: map<NodeID, int>, order: seq<NodeID>, saved: bool, usage: Usage)
      returns (left: map<NodeID, int>, node: NodeID, given: bool)
      requires Valid() && p in executing && executing[p].rec.NeedsNode() && Enumerates(order, slots.Keys)
      modifies this`executing, executingTasks[p], meta`stored
      ensures Valid()
      ensures MostFree(slots, usage.Of(old(executing)[p].rec.kind), node) && (given <==> node != NULL_NODE && saved)
      ensures View({}) == if given then Apply(old(View({})), Assign(p, node)) else old(View({}))
      ensures left == if given then slots[node := slots[node] - usage.Of(old(executing)[p].rec.kind)] else slots
    {
      var use := usage.Of(executingTasks[p].rec.kind);
      node := PickAnyNode(slots, order, use);
      left, given := slots, false;
      if node != NULL_NODE {
        AssignOne(p, node, saved);
        if saved {
          left, given := slots[node := slots[node] - use], true;
        }
      }
    }

    method CollectUnassigned(order: seq<PlanID>) returns (ids: seq<PlanID>)
      requires Valid() && Enumerates(order, executing.Keys)
      ensures forall i, j :: 0 <= i < j < |ids| ==> ids[i] != ids[j]
      ensures forall i :: 0 <= i < |ids| ==> ids[i] in executing.Keys && executing[ids[i]].rec.NeedsNode()
      ensures forall p :: p in executing && executing[p].rec.NeedsNode() ==> p in ids
    {
      ids := [];
      for i := 0 to |order|
        invariant forall i, j :: 0 <= i < j < |ids| ==> ids[i] != ids[j]
        invariant forall j :: 0 <= j < |ids| ==> ids[j] in executing.Keys && executing[ids[j]].rec.NeedsNode()
        invariant forall j, k :: 0 <= j < |ids| && i <= k < |order| ==> ids[j] != order[k]
        invariant forall k :: 0 <= k < i && executing[order[k]].rec.NeedsNode() ==> order[k] in ids
      {
        assert order[i] in executing.Keys;
        assert Holds(executingTasks[order[i]], meta, executing[order[i]], order[i]);
        if executingTasks[order[i]].rec.NeedsNode() {
          ids := ids + [order[i]];
        }
      }
      forall p | p in executing && executing[p].rec.NeedsNode() ensures p in ids {
        assert p in order;
      }
    }

    method AssignNext(
      p: PlanID, left: map<NodeID, int>, order: seq<NodeID>, saved: bool, usage: Usage,
      ghost slots: map<NodeID, int>, ghost start: Handler, ghost before: map<PlanID, Task>,
      ghost states: seq<Handler>, ghost steps: seq<Step>)
      returns (left': map<NodeID, int>, ghost states': seq<Handler>, ghost steps': seq<Step>)
      requires Valid() && p in executing && executing[p].rec.NeedsNode() && Enumerates(order, left.Keys)
      requires p in before && executing[p] == before[p]
      requires Traced(states, steps, start, View({})) && Accounted(slots, left, steps, before, usage)
      modifies this`executing, executingTasks[p], meta`stored
      ensures Valid() && executing.Keys == old(executing).Keys
      ensures forall q :: q in executing && q != p ==> executing[q] == old(executing)[q]
      ensures Traced(states', steps', start, View({})) && Accounted(slots, left', steps', before, usage)
      ensures steps <= steps' && (usage.Sane() ==> forall n :: n in left ==> left'[n] <= left[n])
      ensures saved && NULL_NODE !in slots ==>
          IsAssigned(steps', p) || NoneHasEnough(left', usage.Of(before[p].rec.kind))
    {
      ghost var h := View({});
      var next, node, given := TryAssign(p, left, order, saved, usage);
      left', states', steps' := next, states, steps;
      if given {
        ExtendTrace(states, steps, start, h, Assign(p, node));
        AccountNext(slots, left, steps, before, usage, p, node);
        states', steps' := states + [View({})], steps + [Assign(p, node)];
        assert steps'[|steps|].plan == p;
      }
    }

    /** Assigns nodes to tasks, one after the other. No node is given more than it has free. */
    method AssignNodeIDs(ids: seq<PlanID>, slots: map<NodeID, int>, calls: map<PlanID, Call>, usage: Usage)
      returns (left: map<NodeID, int>, ghost states: seq<Handler>, ghost steps: seq<Step>)
      requires Valid() && Answers(calls, executing.Keys, slots)
      requires forall i, j :: 0 <= i < j < |ids| ==> ids[i] != ids[j]
      requires forall i :: 0 <= i < |ids| ==>
          ids[i] in executing && ids[i] in calls && executing[ids[i]].rec.NeedsNode()
      modifies this`executing, tasks, meta`stored
      ensures Valid() && executing.Keys == old(executing).Keys
      ensures Traced(states, steps, old(View({})), View({}))
      ensures Accounted(slots, left, steps, old(executing), usage)
      ensures usage.Sane() && NULL_NODE !in slots ==> NoneLeftOut(ids, calls, |ids|, steps, left, old(executing), usage)
    {
      left, states, steps := slots, [View({})], [];
      if |slots| == 0 {
        return;
      }
      ghost var start, before := View({}), executing;
      for i := 0 to |ids|
        invariant Valid() && Traced(states, steps, start, View({}))
        invariant executing.Keys == before.Keys
        invariant forall k :: i <= k < |ids| ==> executing[ids[k]] == before[ids[k]]
        invariant Accounted(slots, left, steps, before, usage)
        invariant usage.Sane() && NULL_NODE !in slots ==> NoneLeftOut(ids, calls, i, steps, left, before, usage)
      {
        ghost var earlier, more := steps, left;
        var call := calls[ids[i]];
        left, states, steps :=
          AssignNext(ids[i], left, call.nodeOrder, call.nodeSaved, usage, slots, start, before, states, steps);
        if usage.Sane() && NULL_NODE !in slots {
          NextNotLeftOut(ids, calls, i, earlier, more, steps, left, before, usage);
        }
      }
    }

    method ProcessNext(
      p: PlanID, call: Call, finished: seq<PlanID>,
      ghost gone: set<PlanID>, ghost start: Handler, ghost states: seq<Handler>, ghost steps: seq<Step>)
      returns (finished': seq<PlanID>, ghost gone': set<PlanID>, ghost states': seq<Handler>, ghost steps': seq<Step>)
      requires Valid() && p in executing && Members(call.table) == call.env.segments.Keys
      requires p !in gone && gone == Members(finished) && |gone| == |finished|
      requires Traced(states, steps, start, View(gone))
      modifies this`executing, executingTasks[p], meta
      ensures Valid() && executing.Keys == old(executing).Keys
      ensures gone' == Members(finished') && |gone'| == |finished'| && (gone' == gone || gone' == gone + {p})
      ensures Traced(states', steps', start, View(gone')) && steps' == steps + [Process(p, call.env)]
    {
      ghost var h := View(gone);
      var done := ProcessOne(p, call.env, call.table, gone);
      ExtendTrace(states, steps, start, h, Process(p, call.env));
      finished', gone' := finished, gone;
      if done {
        assert Members(finished + [p]) == gone + {p};
        finished', gone' := finished + [p], gone + {p};
      }
      states', steps' := states + [View(gone')], steps + [Process(p, call.env)];
    }

    /** Processes every executing task once, in the given order. */
    method ProcessAll(order: seq<PlanID>, calls: map<PlanID, Call>, ghost slots: map<NodeID, int>)
      returns (finished: seq<PlanID>, ghost gone: set<PlanID>, ghost states: seq<Handler>, ghost steps: seq<Step>)
      requires Valid() && Enumerates(order, executing.Keys) && Answers(calls, executing.Keys, slots)
      modifies this`executing, tasks, meta
      ensures Valid() && gone == Members(finished) && |gone| == |finished|
      ensures Traced(states, steps, old(View({})), View(gone)) && Processes(steps, order, calls, |order|)
    {
      finished, gone, states, steps := [], {}, [View({})], [];
      ghost var start, plans := View({}), executing.Keys;
      for i := 0 to |order|
        invariant Valid() && executing.Keys == plans
        invariant gone == Members(finished) && |gone| == |finished|
        invariant forall k :: i <= k < |order| ==> order[k] !in gone
        invariant Traced(states, steps, start, View(gone)) && Processes(steps, order, calls, i)
      {
        ProcessesNext(steps, order, calls, i);
        finished, gone, states, steps := ProcessNext(order[i], calls[order[i]], finished, gone, start, states, steps);
      }
    }

    /** Deletes the finished tasks and takes them off the counter. */
    method SweepFinished(finished: seq<PlanID>, ghost gone: set<PlanID>)
      requires Valid() && gone == Members(finished) && |gone| == |finished|
      modifies this`executingTasks, this`executing, this`taskNumber
      ensures Valid()
      ensures View({}) == Apply(old(View(gone)), Sweep)
    {
      TiedWithout(executingTasks, executing, tasks, meta, gone);
      executingTasks := Without(executingTasks, finished);
      taskNumber := taskNumber - |finished|;
      executing := executing - gone;
    }

    /** Processes every executing task, then deletes those that finished. */
    method ProcessAndSweep(order: seq<PlanID>, calls: map<PlanID, Call>, ghost slots: map<NodeID, int>)
      returns (ghost states: seq<Handler>, ghost steps: seq<Step>)
      requires Valid() && Enumerates(order, executing.Keys) && Answers(calls, executing.Keys, slots)
      modifies this, tasks, meta
      ensures Valid() && Traced(states, steps + [Sweep], old(View({})), View({}))
        && Processes(steps, order, calls, |order|)
    {
      ghost var start := View({});
      var finished, gone, run, processing := ProcessAll(order, calls, slots);
      states, steps := run, processing;
      ghost var h := View(gone);
      SweepFinished(finished, gone);
      ExtendTrace(states, steps, start, h, Sweep);
      states := states + [View({})];
    }

    /** One pass: assign nodes, process every executing task exactly once, sweep. Whatever the data nodes and the store
        answer, the pass is a sequence of steps of the state machine. */
    method CheckCompaction(
      assignOrder: seq<PlanID>, slots: map<NodeID, int>, usage: Usage, processOrder: seq<PlanID>,
      calls: map<PlanID, Call>)
      returns (ghost states: seq<Handler>, ghost assigning: seq<Step>,
               ghost processing: seq<Step>, ghost left: map<NodeID, int>)
      requires Valid() && Answers(calls, executing.Keys, slots)
      requires Enumerates(assignOrder, executing.Keys) && Enumerates(processOrder, executing.Keys)
      modifies this, tasks, meta
      ensures Valid() && Traced(states, assigning + (processing + [Sweep]), old(View({})), View({}))
      ensures Accounted(slots, left, assigning, old(executing), usage)
      ensures usage.Sane() && NULL_NODE !in slots ==> AllServed(old(executing), calls, assigning, left, usage)
      ensures Processes(processing, processOrder, calls, |processOrder|)
    {
      ghost var start := View({});
      var ids := CollectUnassigned(assignOrder);
      var rest, before, steps := AssignNodeIDs(ids, slots, calls, usage);
      left := rest;
      if usage.Sane() && NULL_NODE !in slots {
        EveryoneServed(ids, calls, steps, rest, start.executing, usage);
      }
      ghost var h := View({});
      var after, steps' := ProcessAndSweep(processOrder, calls, slots);
      assigning, processing := steps, steps';
      JoinTraces(before, steps, start, h, after, steps' + [Sweep], View({}));
      states := before[..|steps|] + after;
    }
  }
}
