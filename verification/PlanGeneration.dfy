/** How segments are packed into compaction plans: what each phase does, and what it keeps. */
module PlanGeneration {
  import opened PlanGreedy

  /** The configured limits, in bytes and in numbers of segments. */
  datatype Config = Config(
    expected: int, smallLimit: int, compactableLimit: int, expandableLimit: int, expansionLimit: int, minMerge: int,
    maxMerge: int)
  {
    predicate Sane() {
      expected <= expansionLimit && maxMerge >= 1
    }
  }

  // ---------------------------------------------------------------- buckets

  /** How often a segment occurs in the first `n` buckets. */
  ghost function OccursTo(buckets: seq<seq<Seg>>, n: nat, x: Seg): nat
    requires n <= |buckets|
  {
    if n == 0 then 0 else OccursTo(buckets, n - 1, x) + Count(buckets[n - 1], x)
  }

  ghost function Occurs(buckets: seq<seq<Seg>>, x: Seg): nat {
    OccursTo(buckets, |buckets|, x)
  }

  lemma {:induction false} OccursToJoin(a: seq<seq<Seg>>, b: seq<seq<Seg>>, n: nat, x: Seg)
    requires n <= |b|
    ensures OccursTo(a + b, |a| + n, x) == Occurs(a, x) + OccursTo(b, n, x)
  {
    if n == 0 {
      OccursToPrefix(a, b, |a|, x);
    } else {
      OccursToJoin(a, b, n - 1, x);
    }
  }

  lemma {:induction false} OccursToPrefix(a: seq<seq<Seg>>, b: seq<seq<Seg>>, n: nat, x: Seg)
    requires n <= |a|
    ensures OccursTo(a + b, n, x) == OccursTo(a, n, x)
  {
    if n == 0 {
    } else {
      OccursToPrefix(a, b, n - 1, x);
    }
  }

  lemma OccursJoin(a: seq<seq<Seg>>, b: seq<seq<Seg>>, x: Seg)
    ensures Occurs(a + b, x) == Occurs(a, x) + Occurs(b, x)
  {
    OccursToJoin(a, b, |b|, x);
  }

  lemma OccursFirst(b: seq<Seg>, rest: seq<seq<Seg>>, x: Seg)
    ensures Occurs([b] + rest, x) == Count(b, x) + Occurs(rest, x)
  {
    OccursJoin([b], rest, x);
    assert OccursTo([b], 1, x) == OccursTo([b], 0, x) + Count(b, x);
  }

  lemma {:induction false} OccursUpdate(buckets: seq<seq<Seg>>, k: nat, s: Seg, n: nat, x: Seg)
    requires k < |buckets| && n <= |buckets|
    ensures OccursTo(buckets[k := buckets[k] + [s]], n, x)
      == OccursTo(buckets, n, x) + if k < n then Count([s], x) else 0
  {
    if n == 0 {
    } else {
      OccursUpdate(buckets, k, s, n - 1, x);
      CountJoin(buckets[k], [s], x);
    }
  }

  /** A bucket that will not grow too big: alone, or below the expected size and of at most the allowed number. */
  predicate Fits(b: seq<Seg>, cfg: Config) {
    |b| == 1 || (|b| > 1 && Size(b) < cfg.expected && |b| <= cfg.maxMerge)
  }

  predicate Capped(b: seq<Seg>, cfg: Config) {
    |b| == 1 || (|b| > 1 && Size(b) <= cfg.expansionLimit)
  }

  // ---------------------------------------------------------------- prioritized segments

  datatype Filled = Filled(bucket: seq<Seg>, prioritized: seq<Seg>, small: seq<Seg>)

  /** One prioritized segment, with what fits beside it: other prioritized ones first, then small ones. */
  function FillOne(head: Seg, prioritized: seq<Seg>, small: seq<Seg>, cfg: Config): (f: Filled)
    ensures |f.prioritized| <= |prioritized|
  {
    if head.size >= cfg.expected then Filled([head], prioritized, small)
    else
      var p := Greedy(prioritized, cfg.expected - head.size, cfg.maxMerge - 1, |prioritized|);
      var max := cfg.maxMerge - 1 - |p.selected|;
      if max > 0 then
        var q := Greedy(small, p.free, max, |small|);
        Filled([head] + p.selected + q.selected, p.left, q.left)
      else Filled([head] + p.selected, p.left, small)
  }

  datatype Phase = Phase(buckets: seq<seq<Seg>>, small: seq<Seg>)

  function FillPrioritized(prioritized: seq<Seg>, small: seq<Seg>, cfg: Config): Phase
    decreases |prioritized|
  {
    if prioritized == [] then Phase([], small)
    else
      var f := FillOne(prioritized[0], prioritized[1..], small, cfg);
      var rest := FillPrioritized(f.prioritized, f.small, cfg);
      Phase([f.bucket] + rest.buckets, rest.small)
  }

  lemma WholeReverseGreedy(c: seq<Seg>, free: int, max: int, x: Seg)
    ensures
      var p := ReverseGreedy(c, free, max, 0);
      Selects(p, free, max) && Count(p.selected, x) + Count(p.left, x) == Count(c, x)
  {
    ReverseGreedySelects(c, free, max, 0);
    ReverseGreedyCounts(c, free, max, 0, x);
  }

  lemma FillOneCounts(head: Seg, prioritized: seq<Seg>, small: seq<Seg>, cfg: Config, x: Seg)
    ensures
      var f := FillOne(head, prioritized, small, cfg);
      && Count(f.bucket, x) + Count(f.prioritized, x) + Count(f.small, x)
           == Count([head], x) + Count(prioritized, x) + Count(small, x)
      && Count(f.small, x) <= Count(small, x)
  {
    if head.size < cfg.expected {
      var p := Greedy(prioritized, cfg.expected - head.size, cfg.maxMerge - 1, |prioritized|);
      GreedyCounts(prioritized, cfg.expected - head.size, cfg.maxMerge - 1, |prioritized|, x);
      CountJoin([head], p.selected, x);
      var max := cfg.maxMerge - 1 - |p.selected|;
      if max > 0 {
        var q := Greedy(small, p.free, max, |small|);
        GreedyCounts(small, p.free, max, |small|, x);
        CountJoin([head] + p.selected, q.selected, x);
        assert FillOne(head, prioritized, small, cfg) == Filled([head] + p.selected + q.selected, p.left, q.left);
      } else {
        assert FillOne(head, prioritized, small, cfg) == Filled([head] + p.selected, p.left, small);
      }
    }
  }

  /** Two selections in a row, the second from what the first left free, stay within the first one's limits. */
  lemma TwoPicksFit(head: Seg, p: Pick, q: seq<Seg>, cfg: Config)
    requires p.free == cfg.expected - head.size - Size(p.selected)
    requires q != [] || p.selected != [] ==> Size(q) < p.free && 1 + |p.selected| + |q| <= cfg.maxMerge
    ensures Fits([head] + p.selected + q, cfg)
  {
    SizeOne(head);
    SizeJoin([head], p.selected);
    SizeJoin([head] + p.selected, q);
  }

  lemma FillOneFits(head: Seg, prioritized: seq<Seg>, small: seq<Seg>, cfg: Config)
    requires cfg.Sane()
    ensures Fits(FillOne(head, prioritized, small, cfg).bucket, cfg)
  {
    if head.size < cfg.expected {
      var p := Greedy(prioritized, cfg.expected - head.size, cfg.maxMerge - 1, |prioritized|);
      GreedySelects(prioritized, cfg.expected - head.size, cfg.maxMerge - 1, |prioritized|);
      var max := cfg.maxMerge - 1 - |p.selected|;
      if max > 0 {
        GreedySelects(small, p.free, max, |small|);
        TwoPicksFit(head, p, Greedy(small, p.free, max, |small|).selected, cfg);
      } else {
        TwoPicksFit(head, p, [], cfg);
        assert [head] + p.selected + [] == [head] + p.selected;
      }
    }
  }

  /** A bucket has no room for one more, by number or by the expected size. */
  predicate Full(b: seq<Seg>, s: Seg, cfg: Config) {
    |b| >= cfg.maxMerge || Size(b) + s.size >= cfg.expected
  }

  /** What fits beside a prioritized segment is put there. */
  lemma FillOneFull(head: Seg, prioritized: seq<Seg>, small: seq<Seg>, cfg: Config, s: Seg)
    requires
      var f := FillOne(head, prioritized, small, cfg);
      s in f.prioritized || s in f.small
    ensures Full(FillOne(head, prioritized, small, cfg).bucket, s, cfg)
  {
    SizeOne(head);
    if head.size < cfg.expected {
      var p := Greedy(prioritized, cfg.expected - head.size, cfg.maxMerge - 1, |prioritized|);
      GreedySelects(prioritized, cfg.expected - head.size, cfg.maxMerge - 1, |prioritized|);
      var max := cfg.maxMerge - 1 - |p.selected|;
      SizeJoin([head], p.selected);
      if max > 0 {
        var q := Greedy(small, p.free, max, |small|);
        GreedySelects(small, p.free, max, |small|);
        SizeJoin([head] + p.selected, q.selected);
      }
    }
  }

  /** The largest come first: beside a prioritized segment, the first other one in the list that fits is taken
      before any else; and if none does, the first small one that fits. */
  lemma FillOneTakesFirst(head: Seg, prioritized: seq<Seg>, small: seq<Seg>, cfg: Config, k: nat)
    requires cfg.maxMerge > 1
    ensures
      var b := FillOne(head, prioritized, small, cfg).bucket;
      && (k < |prioritized| && head.size + prioritized[k].size < cfg.expected
          && (forall i :: 0 <= i < k ==> head.size + prioritized[i].size >= cfg.expected) ==>
            |b| > 1 && b[1] == prioritized[k])
      && (k < |small| && head.size + small[k].size < cfg.expected
          && (forall i :: 0 <= i < k ==> head.size + small[i].size >= cfg.expected)
          && (forall i :: 0 <= i < |prioritized| ==> head.size + prioritized[i].size >= cfg.expected) ==>
            |b| > 1 && b[1] == small[k])
  {
    var free, max := cfg.expected - head.size, cfg.maxMerge - 1;
    if k < |prioritized| && prioritized[k].size < free && forall i :: 0 <= i < k ==> prioritized[i].size >= free {
      GreedyTakesFirst(prioritized, free, max, k, |prioritized|);
    }
    if forall i :: 0 <= i < |prioritized| ==> prioritized[i].size >= free {
      NoneFits(prioritized, free, max, |prioritized|);
      if k < |small| && small[k].size < free && forall i :: 0 <= i < k ==> small[i].size >= free {
        GreedyTakesFirst(small, free, max, k, |small|);
      }
    }
  }

  /** The bucket starts with the prioritized segment it is for, and what is in it was there to be taken. */
  lemma FillOneTakes(head: Seg, prioritized: seq<Seg>, small: seq<Seg>, cfg: Config, s: Seg)
    ensures
      var f := FillOne(head, prioritized, small, cfg);
      && f.bucket != [] && f.bucket[0] == head
      && (s in f.bucket ==> s == head || s in prioritized || s in small)
      && (s in f.prioritized ==> s in prioritized) && (s in f.small ==> s in small)
  {
    if head.size < cfg.expected {
      var free, max := cfg.expected - head.size, cfg.maxMerge - 1;
      GreedyFrom(prioritized, free, max, |prioritized|, s);
      var p := Greedy(prioritized, free, max, |prioritized|);
      if max - |p.selected| > 0 {
        GreedyFrom(small, p.free, max - |p.selected|, |small|, s);
      }
    }
  }

  lemma GreedyFrom(c: seq<Seg>, free: int, max: int, n: nat, s: Seg)
    requires n == |c|
    ensures s in Greedy(c, free, max, n).selected || s in Greedy(c, free, max, n).left ==> s in c
  {
    var p := Greedy(c, free, max, n);
    GreedyCounts(c, free, max, n, s);
    CountedIsIn(p.selected, s);
    CountedIsIn(p.left, s);
    CountedIsIn(c, s);
  }

  /** What is in the buckets or left over was given. */
  lemma {:induction false} FillPrioritizedTakes(prioritized: seq<Seg>, small: seq<Seg>, cfg: Config, i: nat, s: Seg)
    requires i < |FillPrioritized(prioritized, small, cfg).buckets|
    ensures
      var r := FillPrioritized(prioritized, small, cfg);
      && r.buckets[i] != [] && r.buckets[i][0] in prioritized
      && (s in r.buckets[i] ==> s in prioritized || s in small)
    decreases |prioritized|
  {
    if prioritized == [] {
    } else {
      var f := FillOne(prioritized[0], prioritized[1..], small, cfg);
      FillOneTakes(prioritized[0], prioritized[1..], small, cfg, s);
      if i > 0 {
        FillPrioritizedTakes(f.prioritized, f.small, cfg, i - 1, s);
        var h := FillPrioritized(f.prioritized, f.small, cfg).buckets[i - 1][0];
        FillOneTakes(prioritized[0], prioritized[1..], small, cfg, h);
        FillOneTakes(prioritized[0], prioritized[1..], small, cfg, s);
      }
    }
  }

  lemma {:induction false} FillPrioritizedLeaves(prioritized: seq<Seg>, small: seq<Seg>, cfg: Config, s: Seg)
    requires s in FillPrioritized(prioritized, small, cfg).small
    ensures s in small
    decreases |prioritized|
  {
    if prioritized == [] {
    } else {
      var f := FillOne(prioritized[0], prioritized[1..], small, cfg);
      FillPrioritizedLeaves(f.prioritized, f.small, cfg, s);
      FillOneTakes(prioritized[0], prioritized[1..], small, cfg, s);
    }
  }

  /** No small segment left over, and none in a later bucket, prioritized or small, would fit an earlier bucket. */
  lemma {:induction false} FillPrioritizedFull(prioritized: seq<Seg>, small: seq<Seg>, cfg: Config, i: nat, s: Seg)
    requires
      var r := FillPrioritized(prioritized, small, cfg);
      i < |r.buckets| && (s in r.small || exists j :: i < j < |r.buckets| && s in r.buckets[j])
    ensures Full(FillPrioritized(prioritized, small, cfg).buckets[i], s, cfg)
    decreases |prioritized|
  {
    var f := FillOne(prioritized[0], prioritized[1..], small, cfg);
    var rest := FillPrioritized(f.prioritized, f.small, cfg);
    var r := FillPrioritized(prioritized, small, cfg);
    if i > 0 {
      if s !in r.small {
        var j :| i < j < |r.buckets| && s in r.buckets[j];
        assert rest.buckets[j - 1] == r.buckets[j];
      }
      FillPrioritizedFull(f.prioritized, f.small, cfg, i - 1, s);
    } else {
      if s in r.small {
        FillPrioritizedLeaves(f.prioritized, f.small, cfg, s);
      } else {
        var j :| 0 < j < |r.buckets| && s in r.buckets[j];
        FillPrioritizedTakes(f.prioritized, f.small, cfg, j - 1, s);
      }
      FillOneFull(prioritized[0], prioritized[1..], small, cfg, s);
    }
  }

  /** Every prioritized segment ends up in a bucket, and no bucket of several is too big. */
  lemma {:induction false} FillPrioritizedKeeps(prioritized: seq<Seg>, small: seq<Seg>, cfg: Config, x: Seg)
    requires cfg.Sane()
    ensures
      var r := FillPrioritized(prioritized, small, cfg);
      && Occurs(r.buckets, x) + Count(r.small, x) == Count(prioritized, x) + Count(small, x)
      && Count(r.small, x) <= Count(small, x)
      && forall i :: 0 <= i < |r.buckets| ==> Fits(r.buckets[i], cfg)
    decreases |prioritized|
  {
    if prioritized == [] {
    } else {
      var f := FillOne(prioritized[0], prioritized[1..], small, cfg);
      FillOneCounts(prioritized[0], prioritized[1..], small, cfg, x);
      FillOneFits(prioritized[0], prioritized[1..], small, cfg);
      FillPrioritizedKeeps(f.prioritized, f.small, cfg, x);
      OccursFirst(f.bucket, FillPrioritized(f.prioritized, f.small, cfg).buckets, x);
      CountFirst(prioritized, x);
    }
  }

  // ---------------------------------------------------------------- small segments

  /** Enough segments to merge, or enough bytes. */
  predicate Merges(b: seq<Seg>, cfg: Config) {
    |b| >= cfg.minMerge || (|b| > 1 && Size(b) > cfg.compactableLimit)
  }

  /** The largest small segment, with as many of the smallest as fit beside it. */
  function SmallBucket(head: Seg, others: seq<Seg>, cfg: Config): Pick {
    ReverseGreedy(others, cfg.expected - head.size, cfg.maxMerge - 1, 0)
  }

  function FillSmall(small: seq<Seg>, cfg: Config): Phase
    decreases |small|
  {
    if small == [] then Phase([], [])
    else
      var p := SmallBucket(small[0], small[1..], cfg);
      var bucket := [small[0]] + p.selected;
      var rest := FillSmall(p.left, cfg);
      if Merges(bucket, cfg) then Phase([bucket] + rest.buckets, rest.small)
      else Phase(rest.buckets, bucket + rest.small)
  }

  lemma SmallBucketKeeps(head: Seg, others: seq<Seg>, cfg: Config, x: Seg)
    requires cfg.Sane()
    ensures
      var p := SmallBucket(head, others, cfg);
      && Count([head] + p.selected, x) + Count(p.left, x) == Count([head], x) + Count(others, x)
      && Fits([head] + p.selected, cfg)
  {
    var p := SmallBucket(head, others, cfg);
    WholeReverseGreedy(others, cfg.expected - head.size, cfg.maxMerge - 1, x);
    SizeOne(head);
    SizeJoin([head], p.selected);
    CountJoin([head], p.selected, x);
  }

  lemma {:induction false} FillSmallKeeps(small: seq<Seg>, cfg: Config, x: Seg)
    requires cfg.Sane()
    ensures
      var r := FillSmall(small, cfg);
      && Occurs(r.buckets, x) + Count(r.small, x) == Count(small, x)
      && forall i :: 0 <= i < |r.buckets| ==> Fits(r.buckets[i], cfg) && Merges(r.buckets[i], cfg)
    decreases |small|
  {
    if small == [] {
    } else {
      var p := SmallBucket(small[0], small[1..], cfg);
      var bucket, rest := [small[0]] + p.selected, FillSmall(p.left, cfg);
      SmallBucketKeeps(small[0], small[1..], cfg, x);
      CountFirst(small, x);
      FillSmallKeeps(p.left, cfg, x);
      OccursFirst(bucket, rest.buckets, x);
      CountJoin(bucket, rest.small, x);
    }
  }

  /** Beside a small segment go as many others as fit, of a list sorted from large to small the smallest ones; of
      what is left, nothing would fit any more. */
  lemma SmallBucketFull(head: Seg, others: seq<Seg>, cfg: Config, s: Seg)
    requires s in SmallBucket(head, others, cfg).left
    ensures Full([head] + SmallBucket(head, others, cfg).selected, s, cfg)
  {
    var p := SmallBucket(head, others, cfg);
    ReverseGreedySelects(others, cfg.expected - head.size, cfg.maxMerge - 1, 0);
    SizeOne(head);
    SizeJoin([head], p.selected);
  }

  lemma SmallBucketTakesSmallest(head: Seg, others: seq<Seg>, cfg: Config)
    requires forall i, j :: 0 <= i < j < |others| ==> others[i].size >= others[j].size
    ensures
      var p := SmallBucket(head, others, cfg);
      && p.left == others[..|p.left|]
      && forall i :: 0 <= i < |p.selected| ==> p.selected[i] == others[|others| - 1 - i]
  {
    ReverseGreedyTakesSmallest(others, cfg.expected - head.size, cfg.maxMerge - 1, 0);
  }

  /** Of the groups that are tried, those of at least the smallest number of segments, or of several that are big
      enough, become buckets, in order. */
  ghost function Merged(groups: seq<seq<Seg>>, cfg: Config): seq<seq<Seg>> {
    if groups == [] then []
    else
      var g, rest := groups[0], Merged(groups[1..], cfg);
      if |g| >= cfg.minMerge || (|g| > 1 && Size(g) > cfg.compactableLimit) then [g] + rest else rest
  }

  /** The others are left over. */
  ghost function NotMerged(groups: seq<seq<Seg>>, cfg: Config): seq<Seg> {
    if groups == [] then []
    else
      var g, rest := groups[0], NotMerged(groups[1..], cfg);
      if |g| >= cfg.minMerge || (|g| > 1 && Size(g) > cfg.compactableLimit) then rest else g + rest
  }

  ghost predicate Tried(groups: seq<seq<Seg>>, cfg: Config) {
    && (forall i :: 0 <= i < |groups| ==> groups[i] != [])
    && (forall i, j, k :: 0 <= i < j < |groups| && 0 <= k < |groups[j]| ==> Full(groups[i], groups[j][k], cfg))
  }

  /** All small segments are tried in groups. Nothing in a later group would fit an earlier one; and exactly the groups
      worth merging become buckets. */
  lemma {:induction false} FillSmallGroups(small: seq<Seg>, cfg: Config) returns (groups: seq<seq<Seg>>)
    requires cfg.Sane()
    ensures
      var r := FillSmall(small, cfg);
      r.buckets == Merged(groups, cfg) && r.small == NotMerged(groups, cfg)
    ensures Tried(groups, cfg)
    ensures forall x :: Occurs(groups, x) == Count(small, x)
    decreases |small|
  {
    if small == [] {
      groups := [];
    } else {
      var p := SmallBucket(small[0], small[1..], cfg);
      var g := [small[0]] + p.selected;
      var rest := FillSmallGroups(p.left, cfg);
      groups := [g] + rest;
      assert groups[1..] == rest;
      forall x ensures Occurs(groups, x) == Count(small, x) {
        SmallBucketKeeps(small[0], small[1..], cfg, x);
        CountFirst(small, x);
        OccursFirst(g, rest, x);
      }
      forall j, k | 0 <= j < |rest| && 0 <= k < |rest[j]| ensures Full(g, rest[j][k], cfg) {
        InBucketsIsCounted(rest, j, k);
        CountedIsIn(p.left, rest[j][k]);
        SmallBucketFull(small[0], small[1..], cfg, rest[j][k]);
      }
    }
  }

  lemma InBucketsIsCounted(buckets: seq<seq<Seg>>, j: nat, k: nat)
    requires j < |buckets| && k < |buckets[j]|
    ensures Occurs(buckets, buckets[j][k]) > 0
  {
    CountPositive(buckets[j], |buckets[j]|, k);
    OccursAtLeast(buckets, |buckets|, j, buckets[j][k]);
  }

  // ---------------------------------------------------------------- squeezing

  predicate Room(b: seq<Seg>, s: Seg, limit: int) {
    Size(b) + s.size <= limit
  }

  /** The first bucket from `k` on that has room, or their number. */
  function FirstWithRoom(buckets: seq<seq<Seg>>, s: Seg, limit: int, k: nat): (r: nat)
    requires k <= |buckets|
    ensures k <= r <= |buckets| && (r < |buckets| ==> Room(buckets[r], s, limit))
    ensures forall j :: k <= j < r ==> !Room(buckets[j], s, limit)
    decreases |buckets| - k
  {
    if k == |buckets| || Room(buckets[k], s, limit) then k else FirstWithRoom(buckets, s, limit, k + 1)
  }

  /** One small segment goes into the first bucket with room for it, if it is small enough for that. */
  function SqueezeOne(p: Phase, s: Seg, cfg: Config): Phase {
    var k := FirstWithRoom(p.buckets, s, cfg.expansionLimit, 0);
    if s.size >= cfg.expandableLimit || k == |p.buckets| then p.(small := [s] + p.small)
    else p.(buckets := p.buckets[k := p.buckets[k] + [s]])
  }

  /** The small segments from `n` on, the last one first. */
  function Squeeze(small: seq<Seg>, buckets: seq<seq<Seg>>, cfg: Config, n: nat): Phase
    requires n <= |small|
    decreases |small| - n
  {
    if n == |small| then Phase(buckets, []) else SqueezeOne(Squeeze(small, buckets, cfg, n + 1), small[n], cfg)
  }

  lemma {:induction false} SqueezeCounts(small: seq<Seg>, buckets: seq<seq<Seg>>, cfg: Config, n: nat, x: Seg)
    requires n <= |small|
    ensures
      var r := Squeeze(small, buckets, cfg, n);
      Occurs(r.buckets, x) + Count(r.small, x) == Occurs(buckets, x) + Count(small[n..], x)
    decreases |small| - n
  {
    if n == |small| {
    } else {
      SqueezeCounts(small, buckets, cfg, n + 1, x);
      var p, s := Squeeze(small, buckets, cfg, n + 1), small[n];
      var k := FirstWithRoom(p.buckets, s, cfg.expansionLimit, 0);
      assert small[n..] == [s] + small[n + 1..];
      CountJoin([s], small[n + 1..], x);
      CountJoin([s], p.small, x);
      if k < |p.buckets| {
        OccursUpdate(p.buckets, k, s, |p.buckets|, x);
      }
    }
  }

  /** A bucket has only grown, by small enough segments, and not beyond the limit. */
  ghost predicate HasGrown(before: seq<Seg>, after: seq<Seg>, cfg: Config) {
    && before <= after && Size(before) <= Size(after)
    && (after == before || Size(after) <= cfg.expansionLimit)
    && forall k :: |before| <= k < |after| ==> after[k].size < cfg.expandableLimit
  }

  ghost predicate Grown(before: seq<seq<Seg>>, after: seq<seq<Seg>>, cfg: Config) {
    |after| == |before| && forall i :: 0 <= i < |before| ==> HasGrown(before[i], after[i], cfg)
  }

  ghost predicate Settled(p: Phase, cfg: Config) {
    forall i, j :: 0 <= i < |p.small| && 0 <= j < |p.buckets| && p.small[i].size < cfg.expandableLimit ==>
      !Room(p.buckets[j], p.small[i], cfg.expansionLimit)
  }

  lemma SqueezeOneGrows(before: seq<seq<Seg>>, p: Phase, s: Seg, cfg: Config)
    requires Grown(before, p.buckets, cfg) && Settled(p, cfg)
    ensures Grown(before, SqueezeOne(p, s, cfg).buckets, cfg) && Settled(SqueezeOne(p, s, cfg), cfg)
  {
    var k := FirstWithRoom(p.buckets, s, cfg.expansionLimit, 0);
    if k < |p.buckets| {
      SizeAppend(p.buckets[k], s);
    }
  }

  /** Afterwards, no small segment that may be squeezed in would fit any bucket. */
  lemma {:induction false} SqueezeSettles(small: seq<Seg>, buckets: seq<seq<Seg>>, cfg: Config, n: nat)
    requires n <= |small|
    ensures
      var r := Squeeze(small, buckets, cfg, n);
      Grown(buckets, r.buckets, cfg) && Settled(r, cfg)
    decreases |small| - n
  {
    if n == |small| {
    } else {
      SqueezeSettles(small, buckets, cfg, n + 1);
      SqueezeOneGrows(buckets, Squeeze(small, buckets, cfg, n + 1), small[n], cfg);
    }
  }

  /** The last small segment is squeezed in first, into the first bucket with room. */
  lemma SqueezeStartsLast(small: seq<Seg>, buckets: seq<seq<Seg>>, cfg: Config, k: nat)
    requires small != [] && small[|small| - 1].size < cfg.expandableLimit && k < |buckets|
    requires
      var s := small[|small| - 1];
      && Size(buckets[k]) + s.size <= cfg.expansionLimit
      && forall i :: 0 <= i < k ==> Size(buckets[i]) + s.size > cfg.expansionLimit
    ensures |Squeeze(small, buckets, cfg, 0).buckets| == |buckets|
    ensures buckets[k] + [small[|small| - 1]] <= Squeeze(small, buckets, cfg, 0).buckets[k]
  {
    var n := |small| - 1;
    var s := small[n];
    assert Squeeze(small, buckets, cfg, n) == SqueezeOne(Phase(buckets, []), s, cfg);
    assert FirstWithRoom(buckets, s, cfg.expansionLimit, 0) == k;
    SqueezeGoesOn(small, buckets, cfg, n, 0);
  }

  lemma {:induction false} SqueezeGoesOn(small: seq<Seg>, buckets: seq<seq<Seg>>, cfg: Config, m: nat, n: nat)
    requires n <= m <= |small|
    ensures
      var a, b := Squeeze(small, buckets, cfg, m).buckets, Squeeze(small, buckets, cfg, n).buckets;
      |a| == |b| == |buckets| && forall i :: 0 <= i < |buckets| ==> a[i] <= b[i]
    decreases |small| - n
  {
    if n < m {
      SqueezeGoesOn(small, buckets, cfg, m, n + 1);
    } else if n < |small| {
      SqueezeGoesOn(small, buckets, cfg, m + 1, n + 1);
    }
  }

  // ---------------------------------------------------------------- segments not planned otherwise

  /** What a segment takes in of the small ones from `n` on, the last one first, up to the limit. */
  function Absorb(head: Seg, small: seq<Seg>, limit: int, n: nat): (p: Pick)
    requires n <= |small|
    ensures |p.selected| + |p.left| == |small| - n
    decreases |small| - n
  {
    if n == |small| then Pick([], [], limit - head.size)
    else
      var p := Absorb(head, small, limit, n + 1);
      if small[n].size <= p.free then Pick(p.selected + [small[n]], p.left, p.free - small[n].size)
      else p.(left := [small[n]] + p.left)
  }

  lemma {:induction false} AbsorbKeeps(head: Seg, small: seq<Seg>, limit: int, n: nat, x: Seg)
    requires n <= |small|
    ensures
      var p := Absorb(head, small, limit, n);
      && Count(p.selected, x) + Count(p.left, x) == Count(small[n..], x)
      && p.free == limit - head.size - Size(p.selected)
      && (p.selected != [] ==> p.free >= 0)
      && forall i :: 0 <= i < |p.left| ==> p.left[i].size > p.free
    decreases |small| - n
  {
    if n == |small| {
    } else {
      AbsorbKeeps(head, small, limit, n + 1, x);
      var p := Absorb(head, small, limit, n + 1);
      assert small[n..] == [small[n]] + small[n + 1..];
      CountJoin([small[n]], small[n + 1..], x);
      CountJoin(p.selected, [small[n]], x);
      CountJoin([small[n]], p.left, x);
      SizeAppend(p.selected, small[n]);
    }
  }

  /** The last small segment that fits is the first one taken in. */
  lemma {:induction false} AbsorbTakesLast(head: Seg, small: seq<Seg>, limit: int, k: nat, n: nat)
    requires n <= k < |small| && head.size + small[k].size <= limit
    requires forall i :: k < i < |small| ==> head.size + small[i].size > limit
    ensures var p := Absorb(head, small, limit, n); p.selected != [] && p.selected[0] == small[k]
    decreases |small| - n
  {
    if n == k {
      NothingAbsorbed(head, small, limit, k + 1);
    } else {
      AbsorbTakesLast(head, small, limit, k, n + 1);
    }
  }

  lemma {:induction false} NothingAbsorbed(head: Seg, small: seq<Seg>, limit: int, n: nat)
    requires n <= |small| && forall i :: n <= i < |small| ==> head.size + small[i].size > limit
    ensures Absorb(head, small, limit, n).selected == [] && Absorb(head, small, limit, n).free == limit - head.size
    decreases |small| - n
  {
    if n == |small| {
    } else {
      NothingAbsorbed(head, small, limit, n + 1);
    }
  }

  datatype Last = Last(buckets: seq<seq<Seg>>, small: seq<Seg>, skipped: seq<Seg>)

  /** From the `i`-th on, each segment that takes in a small one makes a plan with it. */
  function FillUnplanned(unplanned: seq<Seg>, i: nat, small: seq<Seg>, cfg: Config): Last
    requires i <= |unplanned|
    decreases |unplanned| - i
  {
    if i == |unplanned| then Last([], small, [])
    else
      var p := Absorb(unplanned[i], small, cfg.expansionLimit, 0);
      var rest := FillUnplanned(unplanned, i + 1, p.left, cfg);
      if p.selected == [] then rest.(skipped := [unplanned[i]] + rest.skipped)
      else rest.(buckets := [[unplanned[i]] + p.selected] + rest.buckets)
  }

  lemma {:induction false} FillUnplannedKeeps(unplanned: seq<Seg>, i: nat, small: seq<Seg>, cfg: Config, x: Seg)
    requires i <= |unplanned|
    ensures
      var r := FillUnplanned(unplanned, i, small, cfg);
      && Occurs(r.buckets, x) + Count(r.small, x) + Count(r.skipped, x) == Count(unplanned[i..], x) + Count(small, x)
      && Count(r.small, x) <= Count(small, x) && Count(r.skipped, x) <= Count(unplanned[i..], x)
    decreases |unplanned| - i
  {
    if i == |unplanned| {
    } else {
      var head := unplanned[i];
      var p := Absorb(head, small, cfg.expansionLimit, 0);
      var rest := FillUnplanned(unplanned, i + 1, p.left, cfg);
      AbsorbKeeps(head, small, cfg.expansionLimit, 0, x);
      assert small[0..] == small && unplanned[i..] == [head] + unplanned[i + 1..];
      FillUnplannedKeeps(unplanned, i + 1, p.left, cfg, x);
      CountJoin([head], unplanned[i + 1..], x);
      CountJoin([head], rest.skipped, x);
      CountJoin([head], p.selected, x);
      OccursFirst([head] + p.selected, rest.buckets, x);
    }
  }

  lemma AbsorbCaps(head: Seg, small: seq<Seg>, cfg: Config)
    ensures var p := Absorb(head, small, cfg.expansionLimit, 0);
      p.selected != [] ==> Capped([head] + p.selected, cfg)
  {
    AbsorbKeeps(head, small, cfg.expansionLimit, 0, head);
    SizeOne(head);
    SizeJoin([head], Absorb(head, small, cfg.expansionLimit, 0).selected);
  }

  lemma {:induction false} FillUnplannedCaps(unplanned: seq<Seg>, i: nat, small: seq<Seg>, cfg: Config, j: nat)
    requires i <= |unplanned| && j < |FillUnplanned(unplanned, i, small, cfg).buckets|
    ensures Capped(FillUnplanned(unplanned, i, small, cfg).buckets[j], cfg)
    decreases |unplanned| - i
  {
    if i == |unplanned| {
    } else {
      var p := Absorb(unplanned[i], small, cfg.expansionLimit, 0);
      AbsorbCaps(unplanned[i], small, cfg);
      if p.selected == [] {
        FillUnplannedCaps(unplanned, i + 1, p.left, cfg, j);
      } else if j > 0 {
        FillUnplannedCaps(unplanned, i + 1, p.left, cfg, j - 1);
      }
    }
  }

  lemma AbsorbFull(head: Seg, small: seq<Seg>, limit: int, s: Seg)
    requires s in Absorb(head, small, limit, 0).left
    ensures Size([head] + Absorb(head, small, limit, 0).selected) + s.size > limit && s in small
  {
    var p := Absorb(head, small, limit, 0);
    AbsorbKeeps(head, small, limit, 0, s);
    SizeOne(head);
    SizeJoin([head], p.selected);
    CountedIsIn(p.left, s);
    CountedIsIn(small, s);
    assert small[0..] == small;
  }

  /** A small segment that is left over in the end fits none of these buckets, and beside none of the segments that made
      none. Every bucket starts with a segment that was not planned otherwise and has taken in another one. */
  lemma {:induction false} FillUnplannedFull(unplanned: seq<Seg>, i: nat, small: seq<Seg>, cfg: Config, s: Seg)
    requires i <= |unplanned|
    ensures
      var r := FillUnplanned(unplanned, i, small, cfg);
      && (s in r.small ==> s in small)
      && (forall j :: 0 <= j < |r.buckets| ==> |r.buckets[j]| > 1 && r.buckets[j][0] in unplanned)
      && (s in r.small ==> forall j :: 0 <= j < |r.buckets| ==> Size(r.buckets[j]) + s.size > cfg.expansionLimit)
      && (s in r.small ==> forall u :: u in r.skipped ==> u.size + s.size > cfg.expansionLimit)
    decreases |unplanned| - i
  {
    if i == |unplanned| {
    } else {
      var head := unplanned[i];
      var p := Absorb(head, small, cfg.expansionLimit, 0);
      FillUnplannedFull(unplanned, i + 1, p.left, cfg, s);
      if s in FillUnplanned(unplanned, i, small, cfg).small {
        AbsorbFull(head, small, cfg.expansionLimit, s);
        SizeOne(head);
        assert p.selected == [] ==> [head] + p.selected == [head];
      }
    }
  }

  // ---------------------------------------------------------------- all phases

  datatype Planning = Planning(buckets: seq<seq<Seg>>, small: seq<Seg>, skipped: seq<Seg>)

  function Plan(prioritized: seq<Seg>, small: seq<Seg>, unplanned: seq<Seg>, cfg: Config): Planning {
    var a := FillPrioritized(prioritized, small, cfg);
    var b := FillSmall(a.small, cfg);
    var c := Squeeze(b.small, a.buckets + b.buckets, cfg, 0);
    var d := FillUnplanned(unplanned, 0, c.small, cfg);
    Planning(c.buckets + d.buckets, d.small, d.skipped)
  }

  /** Plans and leftovers together are the input; nothing prioritized is left over. */
  lemma PlanConserves(prioritized: seq<Seg>, small: seq<Seg>, unplanned: seq<Seg>, cfg: Config, x: Seg)
    requires cfg.Sane()
    ensures
      var r := Plan(prioritized, small, unplanned, cfg);
      && Occurs(r.buckets, x) + Count(r.small, x) + Count(r.skipped, x)
           == Count(prioritized, x) + Count(small, x) + Count(unplanned, x)
      && Count(r.small, x) <= Count(small, x) && Count(r.skipped, x) <= Count(unplanned, x)
  {
    var a := FillPrioritized(prioritized, small, cfg);
    FillPrioritizedKeeps(prioritized, small, cfg, x);
    var b := FillSmall(a.small, cfg);
    FillSmallKeeps(a.small, cfg, x);
    OccursJoin(a.buckets, b.buckets, x);
    var c := Squeeze(b.small, a.buckets + b.buckets, cfg, 0);
    SqueezeCounts(b.small, a.buckets + b.buckets, cfg, 0, x);
    SqueezeKeepsSmall(b.small, a.buckets + b.buckets, cfg, 0, x);
    assert b.small[0..] == b.small && unplanned[0..] == unplanned;
    var d := FillUnplanned(unplanned, 0, c.small, cfg);
    FillUnplannedKeeps(unplanned, 0, c.small, cfg, x);
    OccursJoin(c.buckets, d.buckets, x);
  }

  lemma {:induction false} SqueezeKeepsSmall(small: seq<Seg>, buckets: seq<seq<Seg>>, cfg: Config, n: nat, x: Seg)
    requires n <= |small|
    ensures Count(Squeeze(small, buckets, cfg, n).small, x) <= Count(small[n..], x)
    decreases |small| - n
  {
    if n == |small| {
    } else {
      SqueezeKeepsSmall(small, buckets, cfg, n + 1, x);
      assert small[n..] == [small[n]] + small[n + 1..];
      CountJoin([small[n]], small[n + 1..], x);
      CountJoin([small[n]], Squeeze(small, buckets, cfg, n + 1).small, x);
    }
  }

  /** Before squeezing, buckets of several segments are below the expected size and of at most the allowed number. */
  lemma BucketsFit(prioritized: seq<Seg>, small: seq<Seg>, cfg: Config, i: nat)
    requires cfg.Sane()
    requires
      var a := FillPrioritized(prioritized, small, cfg);
      i < |a.buckets + FillSmall(a.small, cfg).buckets|
    ensures
      var a := FillPrioritized(prioritized, small, cfg);
      Fits((a.buckets + FillSmall(a.small, cfg).buckets)[i], cfg)
  {
    var a := FillPrioritized(prioritized, small, cfg);
    var x := Seg(0, 0, 0, false);
    FillPrioritizedKeeps(prioritized, small, cfg, x);
    FillSmallKeeps(a.small, cfg, x);
  }

  /** In the end, only a lone segment can exceed the expansion limit. */
  lemma PlanCapped(prioritized: seq<Seg>, small: seq<Seg>, unplanned: seq<Seg>, cfg: Config, i: nat)
    requires cfg.Sane() && i < |Plan(prioritized, small, unplanned, cfg).buckets|
    ensures Capped(Plan(prioritized, small, unplanned, cfg).buckets[i], cfg)
  {
    var a := FillPrioritized(prioritized, small, cfg);
    var b := FillSmall(a.small, cfg);
    var before := a.buckets + b.buckets;
    var c := Squeeze(b.small, before, cfg, 0);
    SqueezeSettles(b.small, before, cfg, 0);
    if i < |c.buckets| {
      BucketsFit(prioritized, small, cfg, i);
    } else {
      FillUnplannedCaps(unplanned, 0, c.small, cfg, i - |c.buckets|);
    }
  }

  lemma FillSmallTakes(small: seq<Seg>, cfg: Config, s: Seg)
    requires cfg.Sane()
    ensures
      var r := FillSmall(small, cfg);
      && (s in r.small ==> s in small)
      && (forall i :: 0 <= i < |r.buckets| && s in r.buckets[i] ==> s in small)
  {
    var r := FillSmall(small, cfg);
    FillSmallKeeps(small, cfg, s);
    CountedIsIn(r.small, s);
    CountedIsIn(small, s);
    forall i | 0 <= i < |r.buckets| && s in r.buckets[i] ensures s in small {
      CountedIsIn(r.buckets[i], s);
      OccursAtLeast(r.buckets, |r.buckets|, i, s);
    }
  }

  lemma SqueezeLeaves(small: seq<Seg>, buckets: seq<seq<Seg>>, cfg: Config, s: Seg)
    requires s in Squeeze(small, buckets, cfg, 0).small
    ensures s in small
  {
    SqueezeKeepsSmall(small, buckets, cfg, 0, s);
    CountedIsIn(Squeeze(small, buckets, cfg, 0).small, s);
    CountedIsIn(small, s);
    assert small[0..] == small;
  }

  /** How many buckets the first phase fills, and the first two. */
  function FirstBuckets(prioritized: seq<Seg>, small: seq<Seg>, cfg: Config): nat {
    |FillPrioritized(prioritized, small, cfg).buckets|
  }

  function FirstTwoBuckets(prioritized: seq<Seg>, small: seq<Seg>, cfg: Config): nat {
    var a := FillPrioritized(prioritized, small, cfg);
    |a.buckets| + |FillSmall(a.small, cfg).buckets|
  }

  /** Every plan starts with a segment of its phase's own list. */
  lemma PlanHeads(prioritized: seq<Seg>, small: seq<Seg>, unplanned: seq<Seg>, cfg: Config, i: nat)
    requires cfg.Sane() && i < |Plan(prioritized, small, unplanned, cfg).buckets|
    ensures
      var b, n, m :=
        Plan(prioritized, small, unplanned, cfg).buckets[i], FirstBuckets(prioritized, small, cfg),
        FirstTwoBuckets(prioritized, small, cfg);
      && b != [] && n <= m
      && b[0] in (if i < n then prioritized else if i < m then small else unplanned)
  {
    var a := FillPrioritized(prioritized, small, cfg);
    var b := FillSmall(a.small, cfg);
    var before := a.buckets + b.buckets;
    var c := Squeeze(b.small, before, cfg, 0);
    SqueezeSettles(b.small, before, cfg, 0);
    if i < |a.buckets| {
      FillPrioritizedTakes(prioritized, small, cfg, i, prioritized[0]);
      assert before[i] <= c.buckets[i];
    } else if i < |c.buckets| {
      var h := b.buckets[i - |a.buckets|];
      FillSmallKeeps(a.small, cfg, Seg(0, 0, 0, false));
      assert before[i] == h && h <= c.buckets[i] && h != [];
      FillSmallTakes(a.small, cfg, h[0]);
      FillPrioritizedLeaves(prioritized, small, cfg, h[0]);
    } else {
      FillUnplannedFull(unplanned, 0, c.small, cfg, unplanned[0]);
    }
  }

  lemma GrownIsFull(b: seq<Seg>, grown: seq<Seg>, s: Seg, cfg: Config)
    requires Full(b, s, cfg) && b <= grown && Size(b) <= Size(grown)
    ensures Full(grown, s, cfg)
  {
  }

  /** No small segment is left over that a plan could have taken: not the plan of a prioritized segment, below the
      expected size; not, if it may be squeezed in, any plan, up to the expansion limit; and not a segment that was not
      planned otherwise, with a plan or without, up to that limit. */
  lemma LeftoversFitNowhere(
    prioritized: seq<Seg>, small: seq<Seg>, unplanned: seq<Seg>, cfg: Config, i: nat, s: Seg)
    requires cfg.Sane() && s in Plan(prioritized, small, unplanned, cfg).small
    ensures s in small
    ensures
      var r := Plan(prioritized, small, unplanned, cfg);
      && (i < |r.buckets| && i < FirstBuckets(prioritized, small, cfg) ==> Full(r.buckets[i], s, cfg))
      && (i < |r.buckets| && (s.size < cfg.expandableLimit || i >= FirstTwoBuckets(prioritized, small, cfg)) ==>
            Size(r.buckets[i]) + s.size > cfg.expansionLimit)
      && (forall u :: u in r.skipped ==> u.size + s.size > cfg.expansionLimit)
  {
    var a := FillPrioritized(prioritized, small, cfg);
    var b := FillSmall(a.small, cfg);
    var before := a.buckets + b.buckets;
    var c := Squeeze(b.small, before, cfg, 0);
    FillUnplannedFull(unplanned, 0, c.small, cfg, s);
    SqueezeLeaves(b.small, before, cfg, s);
    FillSmallTakes(a.small, cfg, s);
    FillPrioritizedLeaves(prioritized, small, cfg, s);
    SqueezeSettles(b.small, before, cfg, 0);
    if i < |a.buckets| {
      FillPrioritizedFull(prioritized, small, cfg, i, s);
      assert before[i] == a.buckets[i];
      GrownIsFull(a.buckets[i], c.buckets[i], s, cfg);
    }
    if i < |c.buckets| && s.size < cfg.expandableLimit {
      var k :| 0 <= k < |c.small| && c.small[k] == s;
      assert !Room(c.buckets[i], c.small[k], cfg.expansionLimit);
    }
  }

  /** The small segments that no prioritized one took are tried in groups, and exactly the groups worth merging are
      plans, in order, with what was squeezed in; a small segment left over was in none of these. */
  lemma SmallAreMerged(prioritized: seq<Seg>, small: seq<Seg>, unplanned: seq<Seg>, cfg: Config)
    returns (groups: seq<seq<Seg>>)
    requires cfg.Sane()
    ensures Tried(groups, cfg)
    ensures forall x :: Occurs(groups, x) == Count(FillPrioritized(prioritized, small, cfg).small, x)
    ensures
      var r, n, merged :=
        Plan(prioritized, small, unplanned, cfg), FirstBuckets(prioritized, small, cfg), Merged(groups, cfg);
      && n + |merged| <= |r.buckets|
      && (forall i :: 0 <= i < |merged| ==> HasGrown(merged[i], r.buckets[n + i], cfg))
      && (forall s :: s in r.small ==> s in NotMerged(groups, cfg))
  {
    var a := FillPrioritized(prioritized, small, cfg);
    groups := FillSmallGroups(a.small, cfg);
    var merged, r, n := Merged(groups, cfg), Plan(prioritized, small, unplanned, cfg), |a.buckets|;
    SecondBucketsGrow(prioritized, small, unplanned, cfg);
    forall s | s in r.small ensures s in NotMerged(groups, cfg) {
      LeftFromSecond(prioritized, small, unplanned, cfg, s);
    }
  }

  lemma SecondBucketsGrow(prioritized: seq<Seg>, small: seq<Seg>, unplanned: seq<Seg>, cfg: Config)
    ensures
      var r, n := Plan(prioritized, small, unplanned, cfg), FirstBuckets(prioritized, small, cfg);
      var second := FillSmall(FillPrioritized(prioritized, small, cfg).small, cfg).buckets;
      && n + |second| <= |r.buckets|
      && forall i :: 0 <= i < |second| ==> HasGrown(second[i], r.buckets[n + i], cfg)
  {
    var a := FillPrioritized(prioritized, small, cfg);
    var b := FillSmall(a.small, cfg);
    var before := a.buckets + b.buckets;
    SqueezeSettles(b.small, before, cfg, 0);
    forall i | 0 <= i < |b.buckets|
      ensures HasGrown(b.buckets[i], Squeeze(b.small, before, cfg, 0).buckets[|a.buckets| + i], cfg)
    {
      assert before[|a.buckets| + i] == b.buckets[i];
    }
  }

  lemma LeftFromSecond(prioritized: seq<Seg>, small: seq<Seg>, unplanned: seq<Seg>, cfg: Config, s: Seg)
    requires s in Plan(prioritized, small, unplanned, cfg).small
    ensures s in FillSmall(FillPrioritized(prioritized, small, cfg).small, cfg).small
  {
    var a := FillPrioritized(prioritized, small, cfg);
    var b := FillSmall(a.small, cfg);
    var before := a.buckets + b.buckets;
    FillUnplannedFull(unplanned, 0, Squeeze(b.small, before, cfg, 0).small, cfg, s);
    SqueezeLeaves(b.small, before, cfg, s);
  }

  /** Nor does a prioritized segment have a plan of its own that would have fitted an earlier one. */
  lemma PrioritizedPackTight(
    prioritized: seq<Seg>, small: seq<Seg>, unplanned: seq<Seg>, cfg: Config, i: nat, j: nat)
    requires cfg.Sane() && i < j < FirstBuckets(prioritized, small, cfg)
    ensures
      var r := Plan(prioritized, small, unplanned, cfg);
      j < |r.buckets| && r.buckets[j] != [] && Full(r.buckets[i], r.buckets[j][0], cfg)
  {
    var a := FillPrioritized(prioritized, small, cfg);
    var b := FillSmall(a.small, cfg);
    var before := a.buckets + b.buckets;
    var c := Squeeze(b.small, before, cfg, 0);
    SqueezeSettles(b.small, before, cfg, 0);
    FillPrioritizedTakes(prioritized, small, cfg, j, prioritized[0]);
    assert before[i] == a.buckets[i] && before[j] == a.buckets[j] && before[j] <= c.buckets[j];
    FillPrioritizedFull(prioritized, small, cfg, i, a.buckets[j][0]);
    GrownIsFull(a.buckets[i], c.buckets[i], a.buckets[j][0], cfg);
  }

  /** A segment that occurs once is in one bucket, in one place. */
  lemma {:induction false} OccursAtLeast(buckets: seq<seq<Seg>>, n: nat, i: nat, x: Seg)
    requires i < n <= |buckets|
    ensures Count(buckets[i], x) <= OccursTo(buckets, n, x)
  {
    if i == n - 1 {
    } else {
      OccursAtLeast(buckets, n - 1, i, x);
    }
  }

  lemma {:induction false} TwiceIfInTwo(buckets: seq<seq<Seg>>, n: nat, i: nat, j: nat, x: Seg)
    requires i < j < n <= |buckets|
    ensures Count(buckets[i], x) + Count(buckets[j], x) <= OccursTo(buckets, n, x)
  {
    if j < n - 1 {
      TwiceIfInTwo(buckets, n - 1, i, j, x);
    } else {
      OccursAtLeast(buckets, n - 1, i, x);
    }
  }

  lemma {:induction false} CountPositive(s: seq<Seg>, n: nat, k: nat)
    requires k < n <= |s|
    ensures CountTo(s, n, s[k]) >= 1
  {
    if k == n - 1 {
    } else {
      CountPositive(s, n - 1, k);
    }
  }

  lemma {:induction false} CountTwice(s: seq<Seg>, n: nat, k: nat, l: nat)
    requires k < l < n <= |s| && s[k] == s[l]
    ensures CountTo(s, n, s[k]) >= 2
  {
    if l < n - 1 {
      CountTwice(s, n - 1, k, l);
    } else {
      CountPositive(s, n - 1, k);
    }
  }

  /** No segment that is given once is planned twice: not in two plans, and not twice in one. */
  lemma PlannedOnce(buckets: seq<seq<Seg>>, i: nat, k: nat, j: nat, l: nat)
    requires i < |buckets| && k < |buckets[i]| && j < |buckets| && l < |buckets[j]|
    requires buckets[i][k] == buckets[j][l] && Occurs(buckets, buckets[i][k]) <= 1
    ensures i == j && k == l
  {
    var x := buckets[i][k];
    CountPositive(buckets[i], |buckets[i]|, k);
    CountPositive(buckets[j], |buckets[j]|, l);
    if i < j {
      TwiceIfInTwo(buckets, |buckets|, i, j, x);
    } else if j < i {
      TwiceIfInTwo(buckets, |buckets|, j, i, x);
    } else {
      OccursAtLeast(buckets, |buckets|, i, x);
      if k < l {
        CountTwice(buckets[i], |buckets[i]|, k, l);
      } else if l < k {
        CountTwice(buckets[i], |buckets[i]|, l, k);
      }
    }
  }
}
