/** Three runs of the compaction handler: one that shows which assumption of `CompactionRuns` is needed, and two
    that show what a removal can leave behind. */
module CompactionLimits {
  import opened CompactionTasks
  import opened CompactionRuns

  const SEALED := Segment(1, "c")
  const DELETES := Segment(2, "c")

  const CLUSTERING := Record(10, Clustering, Pipelining, 0, 0, 0, "c", [SEALED], [], 0, 0)
  const LEVEL0 := Record(11, Level0, Pipelining, 0, 0, 0, "c", [DELETES], [], 5, 0)
  const MIX := Record(12, Mix, Pipelining, 0, 0, 0, "c", [SEALED], [20, 21], 0, 0)

  const NO_IDS := Env(false, map[], false, NoResult(false), false, SegmentSaveError, true, true, Hold(Failed, 7))
  const SAVE_FAILS := NO_IDS.(clustering := Forget(Failed))
  const ALL_GOOD := Env(
    true,
    map[SEALED := SegmentInfo(true, 0, 0, true, false, false, 0),
        DELETES := SegmentInfo(true, 0, 0, true, false, true, 0)],
    true, NoResult(false), false, SegmentSaveError, true, true, Hold(Failed, 7))

  /** This run ends here; and if `faithful`, no unlock is forgotten in it. */
  ghost predicate Ends(faithful: bool, states: seq<Handler>, steps: seq<Step>, h: Handler) {
    IsRun(states, steps) && states[|steps|] == h && (faithful ==> Faithful(states, steps, |steps|))
  }

  ghost predicate Reachable(faithful: bool, h: Handler) {
    exists states, steps :: Ends(faithful, states, steps, h)
  }

  lemma ReachEmpty(faithful: bool)
    ensures Reachable(faithful, EMPTY)
  {
    assert Ends(faithful, [EMPTY], [], EMPTY);
  }

  lemma FaithfulNext(states: seq<Handler>, steps: seq<Step>, step: Step, h: Handler)
    requires Leads(states, steps) && Faithful(states, steps, |steps|)
    requires !Forgets(states[|steps|], step) && Leads(states + [h], steps + [step])
    ensures Faithful(states + [h], steps + [step], |steps| + 1)
  {
    forall i | 0 <= i < |steps| + 1 ensures !Forgets((states + [h])[i], (steps + [step])[i]) {
      assert i < |steps| ==> (states + [h])[i] == states[i] && (steps + [step])[i] == steps[i];
    }
  }

  lemma ReachNext(faithful: bool, h: Handler, step: Step)
    requires Reachable(faithful, h) && Enabled(h, step) && (faithful ==> !Forgets(h, step))
    ensures Reachable(faithful, Apply(h, step))
  {
    var states, steps :| Ends(faithful, states, steps, h);
    var h' := Apply(h, step);
    ExtendLeads(states, steps, step);
    if faithful {
      FaithfulNext(states, steps, step, h');
    }
    assert Ends(faithful, states + [h'], steps + [step], h');
  }

  // ---------------------------------------------------------------- a forgotten unlock

  const CT := Task(CLUSTERING, {})
  const CT7 := Task(CLUSTERING.(node := 7), {})
  const CF := Task(CLUSTERING.(node := 7, state := Failed), {})
  const LT := Task(LEVEL0, {})
  const LT7 := Task(LEVEL0.(node := 7), {})
  const C1 := Handler(map[10 := CT], map[], {}, 1, {SEALED}, map[10 := CLUSTERING])
  const C2 := Handler(map[], map[10 := CT], {}, 1, {SEALED}, map[10 := CLUSTERING])
  const C3 := Handler(map[], map[10 := CT7], {}, 1, {SEALED}, map[10 := CT7.rec])
  const C4 := Handler(map[], map[10 := CF], {}, 1, {SEALED}, map[10 := CF.rec])
  const C5 := Handler(map[], map[10 := CF], {}, 1, {}, map[10 := CF.rec])
  const C6 := Handler(map[11 := LT], map[10 := CF], {}, 2, {DELETES}, map[10 := CF.rec, 11 := LEVEL0])
  const C7 := Handler(map[], map[10 := CF, 11 := LT], {}, 2, {DELETES}, map[10 := CF.rec, 11 := LEVEL0])
  const C8 := Handler(map[], map[10 := CF, 11 := LT7], {}, 2, {DELETES}, map[10 := CF.rec, 11 := LT7.rec])

  lemma ClusteringEnqueues()
    ensures Reachable(false, C1)
  {
    assert CLUSTERING.Inputs() == {SEALED};
    ReachEmpty(false);
    ReachNext(false, EMPTY, Enqueue(CLUSTERING, {SEALED}, true));
    assert Apply(EMPTY, Enqueue(CLUSTERING, {SEALED}, true)) == C1;
  }

  lemma ClusteringStarts()
    ensures Reachable(false, C3)
  {
    ClusteringEnqueues();
    ReachNext(false, C1, Schedule({10}));
    assert Apply(C1, Schedule({10})) == C2;
    ReachNext(false, C2, Assign(10, 7));
    assert Apply(C2, Assign(10, 7)) == C3;
  }

  lemma ClusteringFails()
    ensures Reachable(false, C4)
  {
    ClusteringStarts();
    ReachNext(false, C3, Process(10, NO_IDS));
    assert Apply(C3, Process(10, NO_IDS)) == C4;
  }

  lemma ClusteringForgets()
    ensures Reachable(false, C5)
  {
    assert CF.rec.Inputs() == {SEALED};
    ClusteringFails();
    ReachNext(false, C4, Process(10, SAVE_FAILS));
    assert Apply(C4, Process(10, SAVE_FAILS)) == C5;
  }

  lemma Level0Enqueues()
    ensures Reachable(false, C6)
  {
    assert LEVEL0.Inputs() == {DELETES};
    ClusteringForgets();
    ReachNext(false, C5, Enqueue(LEVEL0, {DELETES}, true));
    assert Apply(C5, Enqueue(LEVEL0, {DELETES}, true)) == C6;
  }

  lemma Level0Starts()
    ensures Reachable(false, C7)
  {
    Level0Enqueues();
    ReachNext(false, C6, Schedule({11}));
    assert Apply(C6, Schedule({11})) == C7;
  }

  lemma Level0Assigned()
    ensures Reachable(false, C8)
  {
    Level0Starts();
    ReachNext(false, C7, Assign(11, 7));
    assert Apply(C7, Assign(11, 7)) == C8;
  }

  /** A clustering task that has failed unlocks its inputs, but the save that should follow fails: it goes on executing
      without its locks. A level-zero task does not wait for it, and may then apply deletes to its input. */
  lemma ForgottenUnlockBreaksIsolation()
    ensures exists h :: Reachable(false, h) && !Isolation(h)
  {
    Level0Assigned();
    assert Targets(LT7.rec, ALL_GOOD) == {SEALED};
    assert Buildable(LT7.rec, C8.locked, ALL_GOOD);
    ReachNext(false, C8, Process(11, ALL_GOOD));
    var h := Apply(C8, Process(11, ALL_GOOD));
    assert SEALED in h.executing[11].targets && SEALED in h.executing[10].rec.Inputs();
  }

  // ---------------------------------------------------------------- removals

  const FAILED := Task(MIX.(node := 7, state := Failed), {})
  const M1 := Handler(map[12 := Task(MIX, {})], map[], {}, 1, {SEALED}, map[12 := MIX])
  const M2 := Handler(map[], map[12 := Task(MIX, {})], {}, 1, {SEALED}, map[12 := MIX])
  const M3 := Handler(map[], map[12 := Task(MIX.(node := 7), {})], {}, 1, {SEALED}, map[12 := MIX.(node := 7)])
  const M4 := Handler(map[], map[12 := FAILED], {12}, 1, {}, map[12 := FAILED.rec])
  const M5 := Handler(map[], map[], {12}, 0, {}, map[12 := FAILED.rec])
  const M6 := Handler(map[], map[], {}, -1, {}, map[12 := FAILED.rec])

  lemma MixEnqueues()
    ensures Reachable(true, M1)
  {
    assert MIX.Inputs() == {SEALED};
    ReachEmpty(true);
    ReachNext(true, EMPTY, Enqueue(MIX, {SEALED}, true));
    assert Apply(EMPTY, Enqueue(MIX, {SEALED}, true)) == M1;
  }

  /** A queued task removed with its channel leaves its input flagged, for nobody and, by `OrphanForever`, for good. */
  lemma RemovalLeavesOrphan()
    ensures exists h, s :: Reachable(true, h) && Orphan(h, s)
  {
    MixEnqueues();
    assert OnChannel(M1.queue, "c") == {12} && OnChannel(M1.executing, "c") == {};
    ReachNext(true, M1, RemoveChannel("c"));
    assert Orphan(Apply(M1, RemoveChannel("c")), SEALED);
  }

  lemma MixStarts()
    ensures Reachable(true, M3)
  {
    MixEnqueues();
    ReachNext(true, M1, Schedule({12}));
    assert Apply(M1, Schedule({12})) == M2;
    ReachNext(true, M2, Assign(12, 7));
    assert Apply(M2, Assign(12, 7)) == M3;
  }

  lemma MixFails()
    ensures Reachable(true, M4)
  {
    assert FAILED.rec.Inputs() == {SEALED};
    assert M3.executing[12].rec.state == Pipelining && !M3.executing[12].rec.NeedsNode();
    assert ScriptOf(M3.executing[12].rec, M3.locked, NO_IDS) == Script([FAILED.rec], true);
    MixStarts();
    ReachNext(true, M3, Process(12, NO_IDS));
    assert Apply(M3, Process(12, NO_IDS)) == M4;
  }

  /** A channel removed between a task's finish and the sweep is subtracted from the counter twice, although no
      unlock is forgotten. */
  lemma RemovalDuringPassMiscounts()
    ensures exists h :: Reachable(true, h) && !Counted(h)
  {
    MixFails();
    assert OnChannel(M4.executing, "c") == {12} && OnChannel(M4.queue, "c") == {};
    ReachNext(true, M4, RemoveChannel("c"));
    assert Apply(M4, RemoveChannel("c")) == M5;
    ReachNext(true, M5, Sweep);
    assert Apply(M5, Sweep) == M6;
    assert !Counted(M6);
  }
}
