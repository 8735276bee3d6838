/** The loops that generate compaction plans, against the phases described in `PlanGeneration`. */
module PlanTrigger {
  import opened PlanGreedy
  import opened PlanGeneration

  // ---------------------------------------------------------------- sorting

  /** Larger segments first, and smaller IDs among equals; or the other way round. */
  predicate Before(a: Seg, b: Seg, largeFirst: bool) {
    if largeFirst then a.size > b.size || (a.size == b.size && a.id < b.id)
    else a.size < b.size || (a.size == b.size && a.id > b.id)
  }

  ghost predicate Ordered(s: seq<Seg>, largeFirst: bool) {
    forall i, j :: 0 <= i < j < |s| ==>
      if largeFirst then s[i].size >= s[j].size && (s[i].size == s[j].size ==> s[i].id <= s[j].id)
      else s[i].size <= s[j].size && (s[i].size == s[j].size ==> s[i].id >= s[j].id)
  }

  lemma InsertedInOrder(s: seq<Seg>, x: Seg, i: nat, largeFirst: bool)
    requires Ordered(s, largeFirst) && i <= |s| && (forall k :: 0 <= k < i ==> !Before(x, s[k], largeFirst))
    requires i < |s| ==> Before(x, s[i], largeFirst)
    ensures Ordered(s[..i] + ([x] + s[i..]), largeFirst)
  {
    var r := s[..i] + ([x] + s[i..]);
    forall a, b | 0 <= a < b < |r|
      ensures
        if largeFirst then r[a].size >= r[b].size && (r[a].size == r[b].size ==> r[a].id <= r[b].id)
        else r[a].size <= r[b].size && (r[a].size == r[b].size ==> r[a].id >= r[b].id)
    {
      if b < i {
        assert r[a] == s[a] && r[b] == s[b];
      } else if b == i {
        assert r[a] == s[a] && r[b] == x;
      } else if a < i {
        assert r[a] == s[a] && r[b] == s[b - 1];
      } else if a == i {
        assert r[a] == x && r[b] == s[b - 1];
      } else {
        assert r[a] == s[a - 1] && r[b] == s[b - 1];
      }
    }
  }

  method InsertInOrder(s: seq<Seg>, x: Seg, largeFirst: bool) returns (r: seq<Seg>)
    requires Ordered(s, largeFirst)
    ensures Ordered(r, largeFirst)
    ensures forall y :: Count(r, y) == Count(s, y) + Is(x, y)
  {
    var i := 0;
    while i < |s| && !Before(x, s[i], largeFirst)
      invariant 0 <= i <= |s|
      invariant forall k :: 0 <= k < i ==> !Before(x, s[k], largeFirst)
    {
      i := i + 1;
    }
    r := s[..i] + ([x] + s[i..]);
    InsertedInOrder(s, x, i, largeFirst);
    forall y ensures Count(r, y) == Count(s, y) + Is(x, y) {
      CountJoin(s[..i], [x] + s[i..], y);
      CountPrepend(s[i..], x, y);
      CountJoin(s[..i], s[i..], y);
      assert s[..i] + s[i..] == s;
    }
  }

  method Sort(s: seq<Seg>, largeFirst: bool) returns (r: seq<Seg>)
    ensures Ordered(r, largeFirst)
    ensures forall y :: Count(r, y) == Count(s, y)
  {
    r := [];
    for i := 0 to |s|
      invariant Ordered(r, largeFirst)
      invariant forall y :: Count(r, y) == CountTo(s, i, y)
    {
      r := InsertInOrder(r, s[i], largeFirst);
    }
  }

  // ---------------------------------------------------------------- candidates

  /** Three lists, each with exactly its own segments. */
  method Split(segments: seq<Seg>, force: bool, cfg: Config)
    returns (prioritized: seq<Seg>, small: seq<Seg>, unplanned: seq<Seg>)
    ensures forall x :: Count(prioritized, x) == if force || x.single then Count(segments, x) else 0
    ensures forall x ::
      Count(small, x) == if !force && !x.single && x.size < cfg.smallLimit then Count(segments, x) else 0
    ensures forall x ::
      Count(unplanned, x) == if !force && !x.single && x.size >= cfg.smallLimit then Count(segments, x) else 0
  {
    prioritized, small, unplanned := [], [], [];
    for i := 0 to |segments|
      invariant forall x :: Count(prioritized, x) == if force || x.single then CountTo(segments, i, x) else 0
      invariant forall x ::
        Count(small, x) == if !force && !x.single && x.size < cfg.smallLimit then CountTo(segments, i, x) else 0
      invariant forall x ::
        Count(unplanned, x) == if !force && !x.single && x.size >= cfg.smallLimit then CountTo(segments, i, x) else 0
    {
      var s := segments[i];
      if force || s.single {
        prioritized := Append(prioritized, s);
      } else if s.size < cfg.smallLimit {
        small := Append(small, s);
      } else {
        unplanned := Append(unplanned, s);
      }
    }
  }

  method Append(s: seq<Seg>, x: Seg) returns (r: seq<Seg>)
    ensures r == s + [x] && forall y :: Count(r, y) == Count(s, y) + Is(x, y)
  {
    r := s + [x];
    forall y ensures Count(r, y) == Count(s, y) + Is(x, y) {
      CountAppend(s, x, y);
    }
  }

  // ---------------------------------------------------------------- the phases

  /** One bucket for the first prioritized segment. */
  method PackOne(head: Seg, prioritized: seq<Seg>, small: seq<Seg>, cfg: Config) returns (f: Filled)
    ensures f == FillOne(head, prioritized, small, cfg)
  {
    var bucket := [head];
    var leftPrioritized, leftSmall := prioritized, small;
    if head.size < cfg.expected {
      var result;
      var free := cfg.expected - head.size;
      var maxNum := cfg.maxMerge - 1;
      leftPrioritized, result, free := GreedySelect(prioritized, free, maxNum);
      bucket := bucket + result;
      maxNum := maxNum - |result|;
      if maxNum > 0 {
        leftSmall, result, free := GreedySelect(small, free, maxNum);
        bucket := bucket + result;
      }
    }
    f := Filled(bucket, leftPrioritized, leftSmall);
  }

  method PackPrioritized(
    prioritized: seq<Seg>, small: seq<Seg>, cfg: Config)
    returns (buckets: seq<seq<Seg>>, left: seq<Seg>)
    ensures Phase(buckets, left) == FillPrioritized(prioritized, small, cfg)
  {
    var candidates := prioritized;
    buckets, left := [], small;
    while |candidates| > 0
      invariant
        var rest := FillPrioritized(candidates, left, cfg);
        Phase(buckets + rest.buckets, rest.small) == FillPrioritized(prioritized, small, cfg)
      decreases |candidates|
    {
      var f := PackOne(candidates[0], candidates[1..], left, cfg);
      ghost var rest := FillPrioritized(f.prioritized, f.small, cfg);
      assert buckets + ([f.bucket] + rest.buckets) == (buckets + [f.bucket]) + rest.buckets;
      buckets, candidates, left := buckets + [f.bucket], f.prioritized, f.small;
    }
    assert buckets + [] == buckets;
  }

  /** One bucket for the first small segment, to be merged or not. */
  method PackSmallOne(head: Seg, others: seq<Seg>, cfg: Config) returns (bucket: seq<Seg>, left: seq<Seg>, merge: bool)
    ensures var p := SmallBucket(head, others, cfg); bucket == [head] + p.selected && left == p.left
    ensures merge == Merges(bucket, cfg)
  {
    var result, free;
    left, result, free := ReverseGreedySelect(others, cfg.expected - head.size, cfg.maxMerge - 1);
    bucket := [head] + result;
    var targetSize := Size(bucket);
    merge := |bucket| >= cfg.minMerge || (|bucket| > 1 && targetSize > cfg.compactableLimit);
  }

  method PackSmall(small: seq<Seg>, cfg: Config) returns (buckets: seq<seq<Seg>>, remaining: seq<Seg>)
    ensures Phase(buckets, remaining) == FillSmall(small, cfg)
  {
    var candidates := small;
    buckets, remaining := [], [];
    while |candidates| > 0
      invariant
        var rest := FillSmall(candidates, cfg);
        Phase(buckets + rest.buckets, remaining + rest.small) == FillSmall(small, cfg)
      decreases |candidates|
    {
      var bucket, left, merge := PackSmallOne(candidates[0], candidates[1..], cfg);
      ghost var rest := FillSmall(left, cfg);
      if merge {
        assert buckets + ([bucket] + rest.buckets) == (buckets + [bucket]) + rest.buckets;
        buckets := buckets + [bucket];
      } else {
        assert remaining + (bucket + rest.small) == (remaining + bucket) + rest.small;
        remaining := remaining + bucket;
      }
      candidates := left;
    }
    assert buckets + [] == buckets && remaining + [] == remaining;
  }

  /** The first bucket with room for a segment takes it. */
  method SqueezeIn(buckets: seq<seq<Seg>>, s: Seg, cfg: Config) returns (r: seq<seq<Seg>>, taken: bool)
    ensures
      var k := FirstWithRoom(buckets, s, cfg.expansionLimit, 0);
      taken == (k < |buckets|) && r == if taken then buckets[k := buckets[k] + [s]] else buckets
  {
    for i := 0 to |buckets|
      invariant FirstWithRoom(buckets, s, cfg.expansionLimit, 0) == FirstWithRoom(buckets, s, cfg.expansionLimit, i)
    {
      if Size(buckets[i]) + s.size <= cfg.expansionLimit {
        return buckets[i := buckets[i] + [s]], true;
      }
    }
    return buckets, false;
  }

  method SqueezeSmallSegmentsToBuckets(small: seq<Seg>, buckets: seq<seq<Seg>>, cfg: Config)
    returns (grown: seq<seq<Seg>>, remaining: seq<Seg>)
    ensures Phase(grown, remaining) == Squeeze(small, buckets, cfg, 0)
    ensures Grown(buckets, grown, cfg) && Settled(Phase(grown, remaining), cfg)
  {
    grown, remaining := buckets, small;
    var i := |small|;
    while i > 0
      invariant 0 <= i <= |small| && i <= |remaining|
      invariant remaining[..i] == small[..i]
      invariant Phase(grown, remaining[i..]) == Squeeze(small, buckets, cfg, i)
    {
      i := i - 1;
      var s := remaining[i];
      assert s == small[..i + 1][i];
      assert remaining[..i] == remaining[..i + 1][..i] && small[..i] == small[..i + 1][..i];
      var r, taken := grown, false;
      if s.size < cfg.expandableLimit {
        r, taken := SqueezeIn(grown, s, cfg);
      }
      if taken {
        ghost var before := remaining;
        remaining := remaining[..i] + remaining[i + 1..];
        assert remaining[..i] == before[..i] && remaining[i..] == before[i + 1..];
      } else {
        assert remaining[i..] == [s] + remaining[i + 1..];
      }
      grown := r;
    }
    assert remaining[0..] == remaining;
    SqueezeSettles(small, buckets, cfg, 0);
  }

  /** What an unplanned segment takes in. */
  method AbsorbSmall(head: Seg, small: seq<Seg>, limit: int) returns (selected: seq<Seg>, left: seq<Seg>)
    ensures var p := Absorb(head, small, limit, 0); selected == p.selected && left == p.left
  {
    selected, left := [], small;
    var targetSize := head.size;
    var i := |small|;
    while i > 0
      invariant 0 <= i <= |small| && i <= |left|
      invariant left[..i] == small[..i]
      invariant Pick(selected, left[i..], limit - targetSize) == Absorb(head, small, limit, i)
    {
      i := i - 1;
      var s := left[i];
      assert s == small[..i + 1][i];
      assert left[..i] == left[..i + 1][..i] && small[..i] == small[..i + 1][..i];
      if targetSize + s.size <= limit {
        selected, targetSize := selected + [s], targetSize + s.size;
        ghost var before := left;
        left := left[..i] + left[i + 1..];
        assert left[..i] == before[..i] && left[i..] == before[i + 1..];
      } else {
        assert left[i..] == [s] + left[i + 1..];
      }
    }
    assert left[0..] == left;
  }

  method PackUnplanned(
    unplanned: seq<Seg>, small: seq<Seg>, cfg: Config)
    returns (buckets: seq<seq<Seg>>, left: seq<Seg>)
    ensures var r := FillUnplanned(unplanned, 0, small, cfg); buckets == r.buckets && left == r.small
  {
    buckets, left := [], small;
    for i := 0 to |unplanned|
      invariant
        var rest, r := FillUnplanned(unplanned, i, left, cfg), FillUnplanned(unplanned, 0, small, cfg);
        buckets + rest.buckets == r.buckets && rest.small == r.small
    {
      var selected, others := AbsorbSmall(unplanned[i], left, cfg.expansionLimit);
      var bucket := [unplanned[i]] + selected;
      ghost var rest := FillUnplanned(unplanned, i + 1, others, cfg);
      if |bucket| > 1 {
        assert buckets + ([bucket] + rest.buckets) == (buckets + [bucket]) + rest.buckets;
        buckets := buckets + [bucket];
      }
      left := others;
    }
    assert buckets + [] == buckets;
  }

  // ---------------------------------------------------------------- plans

  datatype CompactionPlan = CompactionPlan(totalRows: int, segmentIDs: seq<int>)

  ghost function RowsTo(s: seq<Seg>, n: nat): int
    requires n <= |s|
  {
    if n == 0 then 0 else RowsTo(s, n - 1) + s[n - 1].rows
  }

  /** The plan names the segments of the bucket, in order, and adds up their rows. */
  ghost predicate IsPlanOf(p: CompactionPlan, b: seq<Seg>) {
    && p.totalRows == RowsTo(b, |b|)
    && |p.segmentIDs| == |b| && forall k :: 0 <= k < |b| ==> p.segmentIDs[k] == b[k].id
  }

  method MakePlan(b: seq<Seg>) returns (p: CompactionPlan)
    ensures IsPlanOf(p, b)
  {
    var rows, ids := 0, [];
    for i := 0 to |b|
      invariant rows == RowsTo(b, i)
      invariant |ids| == i && forall k :: 0 <= k < i ==> ids[k] == b[k].id
    {
      rows, ids := rows + b[i].rows, ids + [b[i].id];
    }
    p := CompactionPlan(rows, ids);
  }

  method MakePlans(buckets: seq<seq<Seg>>) returns (plans: seq<CompactionPlan>)
    ensures |plans| == |buckets| && forall i :: 0 <= i < |buckets| ==> IsPlanOf(plans[i], buckets[i])
  {
    plans := [];
    for i := 0 to |buckets|
      invariant |plans| == i && forall k :: 0 <= k < i ==> IsPlanOf(plans[k], buckets[k])
    {
      var p := MakePlan(buckets[i]);
      plans := plans + [p];
    }
  }

  /** The three lists, sorted, that the plans are made from. */
  datatype Lists = Lists(prioritized: seq<Seg>, small: seq<Seg>, unplanned: seq<Seg>) {
    ghost predicate Of(segments: seq<Seg>, force: bool, cfg: Config) {
      && Ordered(prioritized, true) && Ordered(small, true) && Ordered(unplanned, false)
      && (forall x :: Count(prioritized, x) == if force || x.single then Count(segments, x) else 0)
      && (forall x ::
            Count(small, x) == if !force && !x.single && x.size < cfg.smallLimit then Count(segments, x) else 0)
      && (forall x ::
            Count(unplanned, x) == if !force && !x.single && x.size >= cfg.smallLimit then Count(segments, x) else 0)
    }
  }

  /** A plan could not have taken the small segment: the plan of a prioritized segment not below the expected size,
      and any other it may be squeezed or taken into not up to the expansion limit. */
  predicate FitsNot(b: seq<Seg>, s: Seg, force: bool, cfg: Config)
    requires b != []
  {
    && (force || b[0].single ==> Full(b, s, cfg))
    && (s.size < cfg.expandableLimit || (!force && !b[0].single && b[0].size >= cfg.smallLimit) ==>
          Size(b) + s.size > cfg.expansionLimit)
  }

  /** Nothing is left over, and no prioritized segment has a plan of its own, that would have fitted into a plan. */
  ghost predicate PackedTight(force: bool, cfg: Config, buckets: seq<seq<Seg>>, left: seq<Seg>) {
    && (forall i :: 0 <= i < |buckets| ==> buckets[i] != [])
    && (forall i, k :: 0 <= i < |buckets| && 0 <= k < |left| && left[k].size < cfg.smallLimit ==>
          FitsNot(buckets[i], left[k], force, cfg))
    && (forall k, l :: 0 <= k < |left| && 0 <= l < |left| && left[k].size < cfg.smallLimit <= left[l].size ==>
          left[k].size + left[l].size > cfg.expansionLimit)
    && (forall i, j :: 0 <= i < j < |buckets| && (force || buckets[j][0].single) ==>
          Full(buckets[i], buckets[j][0], cfg))
  }

  lemma ListsMean(segments: seq<Seg>, force: bool, cfg: Config, lists: Lists, x: Seg)
    requires lists.Of(segments, force, cfg)
    ensures x in lists.prioritized ==> force || x.single
    ensures x in lists.small ==> !force && !x.single && x.size < cfg.smallLimit
    ensures x in lists.unplanned ==> !force && !x.single && x.size >= cfg.smallLimit
  {
    CountedIsIn(lists.prioritized, x);
    CountedIsIn(lists.small, x);
    CountedIsIn(lists.unplanned, x);
  }

  lemma SkippedIsUnplanned(unplanned: seq<Seg>, small: seq<Seg>, cfg: Config, u: Seg)
    requires u in FillUnplanned(unplanned, 0, small, cfg).skipped
    ensures u in unplanned
  {
    FillUnplannedKeeps(unplanned, 0, small, cfg, u);
    CountedIsIn(FillUnplanned(unplanned, 0, small, cfg).skipped, u);
    CountedIsIn(unplanned, u);
    assert unplanned[0..] == unplanned;
  }

  /** Which phase a plan comes from shows in the segment it starts with. */
  lemma HeadTells(segments: seq<Seg>, force: bool, cfg: Config, lists: Lists, i: nat)
    requires cfg.Sane() && lists.Of(segments, force, cfg)
    requires i < |Plan(lists.prioritized, lists.small, lists.unplanned, cfg).buckets|
    ensures
      var b := Plan(lists.prioritized, lists.small, lists.unplanned, cfg).buckets[i];
      && b != []
      && (force || b[0].single ==> i < FirstBuckets(lists.prioritized, lists.small, cfg))
      && (!force && !b[0].single && b[0].size >= cfg.smallLimit ==>
            i >= FirstTwoBuckets(lists.prioritized, lists.small, cfg))
  {
    PlanHeads(lists.prioritized, lists.small, lists.unplanned, cfg, i);
    ListsMean(segments, force, cfg, lists, Plan(lists.prioritized, lists.small, lists.unplanned, cfg).buckets[i][0]);
  }

  /** What is left over and smaller than the limit for small segments was left over by all phases. */
  lemma LeftIsSmall(segments: seq<Seg>, force: bool, cfg: Config, lists: Lists, k: nat)
    requires cfg.Sane() && lists.Of(segments, force, cfg)
    requires
      var r := Plan(lists.prioritized, lists.small, lists.unplanned, cfg);
      k < |r.small + r.skipped|
    ensures
      var r := Plan(lists.prioritized, lists.small, lists.unplanned, cfg);
      var s := (r.small + r.skipped)[k];
      if s.size < cfg.smallLimit then s in r.small else s in r.skipped
  {
    var r := Plan(lists.prioritized, lists.small, lists.unplanned, cfg);
    var s := (r.small + r.skipped)[k];
    if k < |r.small| {
      assert s == r.small[k];
      LeftoversFitNowhere(lists.prioritized, lists.small, lists.unplanned, cfg, 0, s);
    } else {
      assert s == r.skipped[k - |r.small|];
      var a := FillPrioritized(lists.prioritized, lists.small, cfg);
      var b := FillSmall(a.small, cfg);
      SkippedIsUnplanned(lists.unplanned, Squeeze(b.small, a.buckets + b.buckets, cfg, 0).small, cfg, s);
    }
    ListsMean(segments, force, cfg, lists, s);
  }

  lemma LeftFitsNot(segments: seq<Seg>, force: bool, cfg: Config, lists: Lists, i: nat, k: nat)
    requires cfg.Sane() && lists.Of(segments, force, cfg)
    requires
      var r := Plan(lists.prioritized, lists.small, lists.unplanned, cfg);
      i < |r.buckets| && k < |r.small + r.skipped| && (r.small + r.skipped)[k].size < cfg.smallLimit
    ensures
      var r := Plan(lists.prioritized, lists.small, lists.unplanned, cfg);
      r.buckets[i] != [] && FitsNot(r.buckets[i], (r.small + r.skipped)[k], force, cfg)
  {
    var r := Plan(lists.prioritized, lists.small, lists.unplanned, cfg);
    HeadTells(segments, force, cfg, lists, i);
    LeftIsSmall(segments, force, cfg, lists, k);
    LeftoversFitNowhere(lists.prioritized, lists.small, lists.unplanned, cfg, i, (r.small + r.skipped)[k]);
  }

  lemma LeftPairFitsNot(segments: seq<Seg>, force: bool, cfg: Config, lists: Lists, k: nat, l: nat)
    requires cfg.Sane() && lists.Of(segments, force, cfg)
    requires
      var r := Plan(lists.prioritized, lists.small, lists.unplanned, cfg);
      var left := r.small + r.skipped;
      k < |left| && l < |left| && left[k].size < cfg.smallLimit <= left[l].size
    ensures
      var r := Plan(lists.prioritized, lists.small, lists.unplanned, cfg);
      (r.small + r.skipped)[k].size + (r.small + r.skipped)[l].size > cfg.expansionLimit
  {
    var r := Plan(lists.prioritized, lists.small, lists.unplanned, cfg);
    LeftIsSmall(segments, force, cfg, lists, k);
    LeftIsSmall(segments, force, cfg, lists, l);
    LeftoversFitNowhere(lists.prioritized, lists.small, lists.unplanned, cfg, 0, (r.small + r.skipped)[k]);
  }

  lemma HeadsFitNot(segments: seq<Seg>, force: bool, cfg: Config, lists: Lists, i: nat, j: nat)
    requires cfg.Sane() && lists.Of(segments, force, cfg)
    requires i < j < |Plan(lists.prioritized, lists.small, lists.unplanned, cfg).buckets|
    ensures
      var b := Plan(lists.prioritized, lists.small, lists.unplanned, cfg).buckets;
      b[j] != [] && (force || b[j][0].single ==> Full(b[i], b[j][0], cfg))
  {
    HeadTells(segments, force, cfg, lists, j);
    if j < FirstBuckets(lists.prioritized, lists.small, cfg) {
      PrioritizedPackTight(lists.prioritized, lists.small, lists.unplanned, cfg, i, j);
    }
  }

  lemma PacksTight(segments: seq<Seg>, force: bool, cfg: Config, lists: Lists)
    requires cfg.Sane() && lists.Of(segments, force, cfg)
    ensures
      var r := Plan(lists.prioritized, lists.small, lists.unplanned, cfg);
      PackedTight(force, cfg, r.buckets, r.small + r.skipped)
  {
    var r := Plan(lists.prioritized, lists.small, lists.unplanned, cfg);
    var left := r.small + r.skipped;
    forall i | 0 <= i < |r.buckets| ensures r.buckets[i] != [] {
      HeadTells(segments, force, cfg, lists, i);
    }
    forall i, k | 0 <= i < |r.buckets| && 0 <= k < |left| && left[k].size < cfg.smallLimit
      ensures FitsNot(r.buckets[i], left[k], force, cfg)
    {
      LeftFitsNot(segments, force, cfg, lists, i, k);
    }
    forall k, l | 0 <= k < |left| && 0 <= l < |left| && left[k].size < cfg.smallLimit <= left[l].size
      ensures left[k].size + left[l].size > cfg.expansionLimit
    {
      LeftPairFitsNot(segments, force, cfg, lists, k, l);
    }
    forall i, j | 0 <= i < j < |r.buckets| && (force || r.buckets[j][0].single)
      ensures Full(r.buckets[i], r.buckets[j][0], cfg)
    {
      HeadsFitNot(segments, force, cfg, lists, i, j);
    }
  }

  /** Plans and leftovers are the input, prioritized segments are all planned, only a lone segment is too big, and
      all is packed tight. */
  ghost predicate WellPlanned(segments: seq<Seg>, force: bool, cfg: Config, buckets: seq<seq<Seg>>, left: seq<Seg>) {
    && (forall x :: Occurs(buckets, x) + Count(left, x) == Count(segments, x))
    && (forall x: Seg :: force || x.single ==> Count(left, x) == 0)
    && (forall i :: 0 <= i < |buckets| ==> Capped(buckets[i], cfg))
    && PackedTight(force, cfg, buckets, left)
  }

  lemma PlansWell(segments: seq<Seg>, force: bool, cfg: Config, lists: Lists)
    requires cfg.Sane() && lists.Of(segments, force, cfg)
    ensures
      var r := Plan(lists.prioritized, lists.small, lists.unplanned, cfg);
      WellPlanned(segments, force, cfg, r.buckets, r.small + r.skipped)
  {
    var r := Plan(lists.prioritized, lists.small, lists.unplanned, cfg);
    forall x
      ensures Occurs(r.buckets, x) + Count(r.small + r.skipped, x) == Count(segments, x)
      ensures force || x.single ==> Count(r.small + r.skipped, x) == 0
    {
      PlanConserves(lists.prioritized, lists.small, lists.unplanned, cfg, x);
      CountJoin(r.small, r.skipped, x);
    }
    forall i | 0 <= i < |r.buckets| ensures Capped(r.buckets[i], cfg) {
      PlanCapped(lists.prioritized, lists.small, lists.unplanned, cfg, i);
    }
    PacksTight(segments, force, cfg, lists);
  }

  /** The plans come from the phases on these lists, and are well made. */
  ghost predicate AreGenerated(plans: seq<CompactionPlan>, segments: seq<Seg>, force: bool, cfg: Config, lists: Lists) {
    var r := Plan(lists.prioritized, lists.small, lists.unplanned, cfg);
    && lists.Of(segments, force, cfg)
    && |plans| == |r.buckets| && (forall i :: 0 <= i < |plans| ==> IsPlanOf(plans[i], r.buckets[i]))
    && WellPlanned(segments, force, cfg, r.buckets, r.small + r.skipped)
  }

  method GeneratePlans(segments: seq<Seg>, force: bool, cfg: Config) returns (plans: seq<CompactionPlan>)
    requires cfg.Sane()
    ensures exists lists :: AreGenerated(plans, segments, force, cfg, lists)
  {
    if |segments| == 0 {
      PlansWell(segments, force, cfg, Lists([], [], []));
      plans := [];
      assert AreGenerated(plans, segments, force, cfg, Lists([], [], []));
      return;
    }
    var prioritized, small, unplanned := Split(segments, force, cfg);
    prioritized := Sort(prioritized, true);
    small := Sort(small, true);
    unplanned := Sort(unplanned, false);
    PlansWell(segments, force, cfg, Lists(prioritized, small, unplanned));
    var first, leftSmall := PackPrioritized(prioritized, small, cfg);
    var second, remaining := PackSmall(leftSmall, cfg);
    var grown, unsqueezed := SqueezeSmallSegmentsToBuckets(remaining, first + second, cfg);
    var third, rest := PackUnplanned(unplanned, unsqueezed, cfg);
    plans := MakePlans(grown + third);
    assert AreGenerated(plans, segments, force, cfg, Lists(prioritized, small, unplanned));
  }

  // ---------------------------------------------------------------- distinct segments

  ghost predicate DistinctIDs(segments: seq<Seg>) {
    forall i, j :: 0 <= i < j < |segments| ==> segments[i].id != segments[j].id
  }

  lemma {:induction false} CountOfDistinct(segments: seq<Seg>, n: nat, x: Seg)
    requires DistinctIDs(segments) && n <= |segments|
    ensures CountTo(segments, n, x) <= 1
    ensures CountTo(segments, n, x) == 1 ==> x in segments[..n]
    ensures x !in segments[..n] ==> CountTo(segments, n, x) == 0
  {
    if n == 0 {
    } else {
      CountOfDistinct(segments, n - 1, x);
      assert segments[..n] == segments[..n - 1] + [segments[n - 1]];
    }
  }

  /** Of distinct segments, none is named twice, by two plans or by one. */
  lemma PlansDisjoint(
    segments: seq<Seg>, force: bool, cfg: Config, buckets: seq<seq<Seg>>, left: seq<Seg>, i: nat, k: nat, j: nat,
    l: nat)
    requires DistinctIDs(segments) && WellPlanned(segments, force, cfg, buckets, left)
    requires i < |buckets| && k < |buckets[i]| && j < |buckets| && l < |buckets[j]|
    requires buckets[i][k].id == buckets[j][l].id
    ensures i == j && k == l
  {
    var a, b := buckets[i][k], buckets[j][l];
    PlannedIsGiven(segments, force, cfg, buckets, left, i, k);
    PlannedIsGiven(segments, force, cfg, buckets, left, j, l);
    CountOfDistinct(segments, |segments|, a);
    PlannedOnce(buckets, i, k, j, l);
  }

  lemma PlannedIsGiven(
    segments: seq<Seg>, force: bool, cfg: Config, buckets: seq<seq<Seg>>, left: seq<Seg>, i: nat, k: nat)
    requires DistinctIDs(segments) && WellPlanned(segments, force, cfg, buckets, left)
    requires i < |buckets| && k < |buckets[i]|
    ensures buckets[i][k] in segments
  {
    var x := buckets[i][k];
    CountPositive(buckets[i], |buckets[i]|, k);
    OccursAtLeast(buckets, |buckets|, i, x);
    assert Occurs(buckets, x) + Count(left, x) == Count(segments, x);
    CountOfDistinct(segments, |segments|, x);
    assert segments[..|segments|] == segments;
  }
}
