/** The flag table with the task store, and compaction tasks, as the objects that the handler updates in place. */
module CompactionObjects {
  import opened CompactionTasks
  import opened Orders

  /** What a record needs to be processed: a state that mix and level-zero tasks know, and the segment IDs that a
      mix task puts into its plan. */
  predicate Processable(r: Record) {
    && (r.kind == Mix || r.kind == Level0 ==> Known(r.state))
    && (r.kind == Mix && r.state in {Pipelining, Executing} ==> |r.results| >= 2)
  }

  class Meta {
    var compacting: set<Segment>
    var stored: map<PlanID, Record>

    constructor ()
      ensures compacting == {} && stored == map[]
    {
      compacting, stored := {}, map[];
    }

    /** All or nothing: the segments are flagged only if every one exists and none was flagged. */
    method CheckAndSetSegmentsCompacting(ids: seq<Segment>, known: set<Segment>) returns (exist: bool, canDo: bool)
      modifies this`compacting
      ensures exist <==> Members(ids) <= known
      ensures canDo <==> exist && Members(ids) !! old(compacting)
      ensures compacting == if canDo then old(compacting) + Members(ids) else old(compacting)
    {
      var hasCompacting := false;
      exist := true;
      var i := 0;
      while i < |ids| && exist
        invariant 0 <= i <= |ids|
        invariant exist ==> forall k :: 0 <= k < i ==> ids[k] in known
        invariant !exist ==> exists k :: 0 <= k < |ids| && ids[k] !in known
        invariant hasCompacting <==> exists k :: 0 <= k < i && ids[k] in known && ids[k] in compacting
        decreases |ids| - i, exist
      {
        if ids[i] in known {
          if ids[i] in compacting {
            hasCompacting := true;
          }
          i := i + 1;
        } else {
          exist := false;
        }
      }
      canDo := exist && !hasCompacting;
      if canDo {
        SetSegmentsCompacting(ids, true);
      }
    }

    method SetSegmentsCompacting(ids: seq<Segment>, flag: bool)
      modifies this`compacting
      ensures compacting == if flag then old(compacting) + Members(ids) else old(compacting) - Members(ids)
    {
      for i := 0 to |ids|
        invariant compacting ==
          if flag then old(compacting) + Members(ids[..i]) else old(compacting) - Members(ids[..i])
      {
        compacting := if flag then compacting + {ids[i]} else compacting - {ids[i]};
        assert Members(ids[..i + 1]) == Members(ids[..i]) + {ids[i]};
      }
      assert ids[..|ids|] == ids;
    }

    /** `ok` says whether the store takes the record. */
    method SaveCompactionTask(rec: Record, ok: bool)
      modifies this`stored
      ensures stored == if ok then old(stored)[rec.planID := rec] else old(stored)
    {
      if ok {
        stored := stored[rec.planID := rec];
      }
    }
  }

  /** A mix, level-zero or clustering task. */
  class CompactionTask {
    const meta: Meta
    var rec: Record
    var targets: set<Segment>

    ghost function View(): Task
      reads this
    {
      Task(rec, targets)
    }

    /** A mix task indexes its two pre-allocated segment IDs when it builds a plan. */
    ghost predicate Valid()
      reads this
    {
      rec.kind != OtherKind && Processable(rec)
    }

    constructor (meta: Meta, rec: Record)
      ensures this.meta == meta && this.rec == rec && targets == {}
    {
      this.meta, this.rec, targets := meta, rec, {};
    }

    /** Memory follows the store: the record is replaced only when the store has taken the new one. */
    method UpdateAndSave(next: Record, ok: bool)
      requires next.planID == rec.planID
      modifies this`rec, meta`stored
      ensures rec == if ok then next else old(rec)
      ensures meta.stored == if ok then old(meta.stored)[next.planID := next] else old(meta.stored)
    {
      meta.SaveCompactionTask(next, ok);
      if ok {
        rec := next;
      }
    }

    /** `order` is the order in which the segment table yields the candidate targets. */
    method BuildCompactionRequest(env: Env, order: seq<Segment>) returns (ok: bool, sealed: set<Segment>)
      requires rec.kind == Mix || rec.kind == Level0
      requires rec.kind == Mix ==> |rec.results| >= 2
      requires Members(order) == env.segments.Keys
      ensures ok <==> Buildable(rec, meta.compacting, env)
      ensures sealed == if ok && rec.kind == Level0 then Targets(rec, env) else {}
    {
      sealed := {};
      if !env.idAllocated {
        return false, {};
      }
      for i := 0 to |rec.inputs|
        invariant forall k :: 0 <= k < i ==> rec.inputs[k] in env.segments && env.segments[rec.inputs[k]].healthy
      {
        if rec.inputs[i] !in env.segments || !env.segments[rec.inputs[i]].healthy {
          return false, {};
        }
      }
      if rec.kind == Mix {
        return true, {};
      }
      var busy := false;
      for i := 0 to |order|
        invariant forall s :: s in sealed <==> s in order[..i] && IsTarget(rec, s, env.segments[s])
        invariant busy <==> !(sealed !! meta.compacting)
      {
        assert order[i] in Members(order);
        if IsTarget(rec, order[i], env.segments[order[i]]) {
          sealed := sealed + {order[i]};
          busy := busy || order[i] in meta.compacting;
        }
      }
      assert order[..|order|] == order;
      assert sealed == Targets(rec, env) by {
        assert forall s :: s in env.segments ==> s in Members(order);
      }
      if sealed == {} || busy {
        return false, {};
      }
      return true, sealed;
    }

    method ResetSegmentCompacting()
      modifies meta`compacting
      ensures meta.compacting == old(meta.compacting) - rec.Inputs()
    {
      meta.SetSegmentsCompacting(rec.inputs, false);
      assert Members(rec.inputs) == rec.Inputs();
    }

    /** The three ways out; the call that drops the plan on the data node is best effort. */
    method Leave() returns (done: bool)
      modifies meta`compacting
      ensures done && meta.compacting == old(meta.compacting) - rec.Inputs()
    {
      ResetSegmentCompacting();
      return true;
    }

    /** Saves a record and, if that succeeds, leaves. */
    method SaveAndLeave(next: Record, ok: bool) returns (done: bool)
      requires next.planID == rec.planID && next.inputs == rec.inputs
      modifies this`rec, meta
      ensures done == ok
      ensures rec == if ok then next else old(rec)
      ensures meta.stored == if ok then old(meta.stored)[next.planID := next] else old(meta.stored)
      ensures meta.compacting == if ok then old(meta.compacting) - old(rec).Inputs() else old(meta.compacting)
    {
      UpdateAndSave(next, ok);
      if !ok {
        return false;
      }
      done := Leave();
    }

    /** The new record, store and flags are those of `o`. */
    twostate predicate Follows(done: bool, o: Outcome)
      reads this, meta
    {
      && View() == o.task
      && done == o.done
      && meta.compacting == (if o.unlocked then old(meta.compacting) - old(rec).Inputs() else old(meta.compacting))
      && meta.stored ==
           (if o.saved == [] then old(meta.stored) else old(meta.stored)[rec.planID := o.saved[|o.saved| - 1]])
    }

    method ProcessPipelining(env: Env, order: seq<Segment>) returns (done: bool)
      requires Valid() && rec.kind != Clustering && rec.state == Pipelining
      requires Members(order) == env.segments.Keys
      modifies this, meta
      ensures Follows(done, ProcessSimple(old(View()), old(meta.compacting), env))
    {
      if rec.NeedsNode() {
        return false;
      }
      var ok, sealed := BuildCompactionRequest(env, order);
      if rec.kind == Level0 {
        targets := sealed;
      }
      if !ok {
        done := SaveAndLeave(rec.(state := Failed), env.firstSave);
      } else if !env.notified {
        UpdateAndSave(rec.(state := Pipelining, node := NULL_NODE), env.firstSave);
        done := false;
      } else {
        UpdateAndSave(rec.(state := Executing), env.firstSave);
        done := false;
      }
    }

    method ProcessMetaSaved(ok: bool) returns (done: bool)
      modifies this`rec, meta
      ensures done == ok
      ensures rec == if ok then old(rec).(state := Completed) else old(rec)
      ensures meta.stored == if ok then old(meta.stored)[rec.planID := rec] else old(meta.stored)
      ensures meta.compacting == if ok then old(meta.compacting) - old(rec).Inputs() else old(meta.compacting)
    {
      done := SaveAndLeave(rec.(state := Completed), ok);
    }

    method CompleteMix(env: Env) returns (done: bool)
      requires Valid() && rec.kind == Mix && rec.state == Executing
      requires env.result.Result? && env.result.state == Completed
      modifies this, meta
      ensures Follows(done, ProcessSimple(old(View()), old(meta.compacting), env))
    {
      done := false;
      if env.result.segments == [] || env.segmentSave.IllegalPlan? {
        done := SaveAndLeave(rec.(state := Failed), env.firstSave);
      } else if env.segmentSave.SegmentsSaved? {
        UpdateAndSave(rec.(state := MetaSaved, results := env.segmentSave.segments), env.firstSave);
        if env.firstSave {
          done := ProcessMetaSaved(env.secondSave);
        }
      }
    }

    method ProcessExecutingMix(env: Env) returns (done: bool)
      requires Valid() && rec.kind == Mix && rec.state == Executing
      modifies this, meta
      ensures Follows(done, ProcessSimple(old(View()), old(meta.compacting), env))
    {
      match env.result {
        case NoResult(nodeNotFound) =>
          if nodeNotFound {
            UpdateAndSave(rec.(state := Pipelining, node := NULL_NODE), env.firstSave);
          }
          done := false;
        case Result(s, _) =>
          done := false;
          if s == Executing {
            if env.timedOut {
              done := SaveAndLeave(rec.(state := Timeout), env.firstSave);
            }
          } else if s == Completed {
            done := CompleteMix(env);
          } else if s == Failed {
            UpdateAndSave(rec.(state := Failed), env.firstSave);
          }
      }
    }

    method ProcessExecutingLevel0(env: Env) returns (done: bool)
      requires Valid() && rec.kind == Level0 && rec.state == Executing
      modifies this, meta
      ensures Follows(done, ProcessSimple(old(View()), old(meta.compacting), env))
    {
      match env.result {
        case NoResult(nodeNotFound) =>
          if nodeNotFound {
            UpdateAndSave(rec.(state := Pipelining, node := NULL_NODE), env.firstSave);
          }
          done := false;
        case Result(s, _) =>
          done := false;
          if s == Executing {
            if env.timedOut {
              done := SaveAndLeave(rec.(state := Timeout), env.firstSave);
            }
          } else if s == Completed {
            if env.segmentSave.SegmentsSaved? {
              UpdateAndSave(rec.(state := MetaSaved), env.firstSave);
              if env.firstSave {
                done := ProcessMetaSaved(env.secondSave);
              }
            }
          } else if s == Failed {
            done := SaveAndLeave(rec.(state := Failed), env.firstSave);
          }
      }
    }

    method ProcessSimpleTask(env: Env, order: seq<Segment>) returns (done: bool)
      requires Valid() && rec.kind != Clustering
      requires Members(order) == env.segments.Keys
      modifies this, meta
      ensures Follows(done, ProcessSimple(old(View()), old(meta.compacting), env))
    {
      match rec.state {
        case Pipelining => done := ProcessPipelining(env, order);
        case Executing =>
          if rec.kind == Mix {
            done := ProcessExecutingMix(env);
          } else {
            done := ProcessExecutingLevel0(env);
          }
        case MetaSaved => done := ProcessMetaSaved(env.firstSave);
        case Completed | Failed | Timeout => done := Leave();
        case _ => done := true;
      }
    }

    /** A clustering task: only its record and its locks. */
    method ProcessClusteringTask(move: ClusteringMove) returns (done: bool)
      modifies this, meta
      ensures Follows(done, ProcessClustering(old(View()), move))
    {
      if !Possible(rec.state, move) {
        return false;
      }
      match move {
        case Hold(s, n) =>
          UpdateAndSave(rec.(state := s, node := n), true);
          done := false;
        case Finish(n) =>
          UpdateAndSave(rec.(state := Completed, node := n), true);
          done := true;
        case Clean(n) =>
          ResetSegmentCompacting();
          UpdateAndSave(rec.(state := Cleaned, node := n), true);
          done := true;
        case Forget(s) =>
          ResetSegmentCompacting();
          UpdateAndSave(rec.(state := s), true);
          done := false;
      }
    }

    /** One call does exactly what `ProcessTask` says, and leaves the task fit for the next call. */
    method Process(env: Env, order: seq<Segment>) returns (done: bool)
      requires Valid() && Members(order) == env.segments.Keys
      modifies this, meta
      ensures Valid() && rec.SameTask(old(rec))
      ensures Follows(done, ProcessTask(old(View()), old(meta.compacting), env))
    {
      if rec.kind == Clustering {
        done := ProcessClusteringTask(env.clustering);
      } else {
        ProcessDiscipline(View(), meta.compacting, env);
        if rec.kind == Mix {
          MixKeepsResultIDs(View(), meta.compacting, env);
        }
        done := ProcessSimpleTask(env, order);
      }
    }

    method SetNodeID(node: NodeID, ok: bool)
      modifies this`rec, meta`stored
      ensures rec == if ok then old(rec).(node := node) else old(rec)
      ensures meta.stored == if ok then old(meta.stored)[rec.planID := rec] else old(meta.stored)
    {
      UpdateAndSave(rec.(node := node), ok);
    }
  }
}
