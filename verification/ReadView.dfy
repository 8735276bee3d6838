/** The read view of a channel: which segments stand for the flushed data while indexes are being built. A segment
    without an index is replaced by the segments it was compacted from, as far back as these are all still known. */
module ReadView {

  type ID = int

  /** What the segments known were compacted from, which have an index, and the flushed ones that have none. */
  datatype Lineage = Lineage(from: map<ID, seq<ID>>, indexed: set<ID>, start: set<ID>)

  predicate Expandable(g: Lineage, x: ID) {
    x in g.from && g.from[x] != [] && forall k :: 0 <= k < |g.from[x]| ==> g.from[x][k] in g.from
  }

  /** `y` is one of the segments that `x` was compacted from. */
  predicate IsParent(g: Lineage, y: ID, x: ID) {
    x in g.from && y in g.from[x]
  }

  // ---------------------------------------------------------------- what is reached

  ghost predicate Link(g: Lineage, p: seq<ID>, k: nat)
    requires 0 < k < |p|
  {
    Expandable(g, p[k - 1]) && IsParent(g, p[k], p[k - 1]) && p[k] !in g.indexed
  }

  /** From a flushed segment without an index, through parents without an index, each segment left being expandable. */
  ghost predicate IsTrail(g: Lineage, p: seq<ID>) {
    && |p| > 0 && p[0] in g.start
    && forall k :: 0 < k < |p| ==> Link(g, p, k)
  }

  ghost predicate Reached(g: Lineage, x: ID) {
    exists p :: IsTrail(g, p) && p[|p| - 1] == x
  }

  /** `y` is a parent of a segment that is reached and can be replaced. */
  ghost predicate Replacing(g: Lineage, y: ID) {
    exists x :: Reached(g, x) && Expandable(g, x) && IsParent(g, y, x)
  }

  lemma StartReached(g: Lineage, x: ID)
    requires x in g.start
    ensures Reached(g, x)
  {
    assert IsTrail(g, [x]);
  }

  lemma ParentReached(g: Lineage, x: ID, y: ID)
    requires Reached(g, x) && Expandable(g, x) && IsParent(g, y, x) && y !in g.indexed
    ensures Reached(g, y)
  {
    var p :| IsTrail(g, p) && p[|p| - 1] == x;
    var q := p + [y];
    forall k | 0 < k < |q| ensures Link(g, q, k) {
      assert k < |p| ==> Link(g, p, k);
    }
    assert IsTrail(g, q);
  }

  /** A set that holds the start and is closed under replacing holds everything reached. */
  lemma {:induction false} TrailWithin(g: Lineage, s: set<ID>, p: seq<ID>, n: nat)
    requires g.start <= s
    requires forall x, y :: x in s && Expandable(g, x) && IsParent(g, y, x) && y !in g.indexed ==> y in s
    requires IsTrail(g, p) && n < |p|
    ensures p[n] in s
  {
    if n == 0 {
    } else {
      TrailWithin(g, s, p, n - 1);
      assert Link(g, p, n);
    }
  }

  // ---------------------------------------------------------------- the result

  /** The three sets that the loop rewrites. */
  datatype Sets = Sets(unIndexed: set<ID>, indexed: set<ID>, dropped: set<ID>)

  /** Left without an index are exactly the segments reached that cannot be replaced; added to the indexed ones are
      exactly the indexed parents of segments replaced; and no parent of a segment replaced counts as dropped. */
  ghost predicate IsResult(g: Lineage, first: Sets, last: Sets) {
    && (forall x :: x in last.unIndexed <==> Reached(g, x) && !Expandable(g, x))
    && (forall x :: x in last.indexed <==> x in first.indexed || (x in g.indexed && Replacing(g, x)))
    && (forall x :: x in last.dropped <==> x in first.dropped && !Replacing(g, x))
  }

  lemma ResultIsUnique(g: Lineage, first: Sets, a: Sets, b: Sets)
    requires IsResult(g, first, a) && IsResult(g, first, b)
    ensures a == b
  {
    assert forall x :: x in a.unIndexed <==> x in b.unIndexed;
    assert forall x :: x in a.indexed <==> x in b.indexed;
    assert forall x :: x in a.dropped <==> x in b.dropped;
  }

  /** As the sets are first filled. */
  ghost predicate IsFirst(g: Lineage, first: Sets) {
    && first.unIndexed == g.start
    && (forall x :: x in g.start ==> x in g.from && x !in g.indexed && x !in first.indexed && x !in first.dropped)
    && (forall x :: x in first.dropped ==> x !in first.indexed)
  }

  ghost function Flushed(s: Sets): set<ID> {
    s.indexed + s.unIndexed
  }

  lemma PrefixReached(g: Lineage, p: seq<ID>, n: nat)
    requires IsTrail(g, p) && 0 < n <= |p|
    ensures Reached(g, p[n - 1])
  {
    var q := p[..n];
    forall k | 0 < k < |q| ensures Link(g, q, k) {
      assert Link(g, p, k);
    }
    assert IsTrail(g, q) && q[|q| - 1] == p[n - 1];
  }

  lemma ReachedBeyondStart(g: Lineage, x: ID)
    requires Reached(g, x) && x !in g.start
    ensures Replacing(g, x)
  {
    var p :| IsTrail(g, p) && p[|p| - 1] == x;
    assert Link(g, p, |p| - 1);
    PrefixReached(g, p, |p| - 1);
  }

  /** Nothing is both flushed and dropped. */
  lemma DroppedApart(g: Lineage, first: Sets, last: Sets)
    requires IsFirst(g, first) && IsResult(g, first, last)
    ensures last.dropped !! Flushed(last)
  {
    forall x | x in last.dropped ensures x !in Flushed(last) {
      if x in last.unIndexed {
        ReachedBeyondStart(g, x);
      }
    }
  }

  lemma ReachedIsKnown(g: Lineage, first: Sets, x: ID)
    requires IsFirst(g, first) && Reached(g, x)
    ensures x in g.from && x !in g.indexed
  {
    var p :| IsTrail(g, p) && p[|p| - 1] == x;
    if |p| > 1 {
      assert Link(g, p, |p| - 1);
    }
  }

  /** No segment without an index is left in the view whose parents are all known, unless it has none. */
  lemma NothingLeftToReplace(g: Lineage, first: Sets, last: Sets, x: ID)
    requires IsFirst(g, first) && IsResult(g, first, last) && x in last.unIndexed
    ensures x in g.from && x !in g.indexed
    ensures g.from[x] == [] || exists k :: 0 <= k < |g.from[x]| && g.from[x][k] !in g.from
  {
    ReachedIsKnown(g, first, x);
  }

  /** A flushed segment without an index whose parents are all known is not in the view. Each of its parents is, if it
      has an index or cannot be replaced in turn; none counts as dropped. */
  lemma ReplacedByParents(g: Lineage, first: Sets, last: Sets, x: ID, y: ID)
    requires IsFirst(g, first) && IsResult(g, first, last) && x in g.start && y in g.from[x]
    requires forall k :: 0 <= k < |g.from[x]| ==> g.from[x][k] in g.from
    ensures x !in Flushed(last) && y !in last.dropped
    ensures y in g.indexed ==> y in last.indexed
    ensures y !in g.indexed && (g.from[y] == [] || exists k :: 0 <= k < |g.from[y]| && g.from[y][k] !in g.from) ==>
      y in last.unIndexed
  {
    StartReached(g, x);
    assert IsParent(g, y, x) && Replacing(g, y);
    if y !in g.indexed {
      ParentReached(g, x, y);
    }
  }

  /** The indexed segments are those there were, and parents with an index; what was dropped still is, unless it is a
      parent of a segment without an index whose parents are all known. */
  lemma OnlyParentsMove(g: Lineage, first: Sets, last: Sets, y: ID)
    requires IsFirst(g, first) && IsResult(g, first, last)
    ensures y in first.indexed ==> y in last.indexed
    ensures y in last.indexed ==> y in first.indexed || y in g.indexed
    ensures y in last.dropped ==> y in first.dropped
    ensures y in first.dropped && y !in last.dropped ==>
      exists x ::
        && x in g.from && x !in g.indexed && y in g.from[x]
        && forall k :: 0 <= k < |g.from[x]| ==> g.from[x][k] in g.from
  {
    if y in first.dropped && y !in last.dropped {
      var x :| Reached(g, x) && Expandable(g, x) && IsParent(g, y, x);
      ReachedIsKnown(g, first, x);
    }
  }

  // ---------------------------------------------------------------- coverage

  /** The lineage is acyclic: parents rank below their children. */
  ghost predicate Ranked(g: Lineage, rank: map<ID, nat>) {
    && (forall x :: x in g.from ==> x in rank)
    && (forall x, y :: x in g.from && y in g.from && IsParent(g, y, x) ==> rank[y] < rank[x])
  }

  /** A segment's data is in `flushed`: itself, or all of what it was compacted from. */
  ghost predicate Covered(g: Lineage, rank: map<ID, nat>, flushed: set<ID>, x: ID)
    requires Ranked(g, rank)
    decreases if x in rank then rank[x] else 0
  {
    || x in flushed
    || (Expandable(g, x) && forall k :: 0 <= k < |g.from[x]| ==>
          var y := g.from[x][k];
          assert IsParent(g, y, x);
          Covered(g, rank, flushed, y))
  }

  lemma {:induction false} ReachedCovered(g: Lineage, rank: map<ID, nat>, first: Sets, last: Sets, x: ID)
    requires Ranked(g, rank) && IsResult(g, first, last) && Reached(g, x)
    ensures Covered(g, rank, Flushed(last), x)
    decreases if x in rank then rank[x] else 0
  {
    if Expandable(g, x) {
      forall k | 0 <= k < |g.from[x]| ensures Covered(g, rank, Flushed(last), g.from[x][k]) {
        var y := g.from[x][k];
        assert IsParent(g, y, x);
        if y !in g.indexed {
          ParentReached(g, x, y);
          ReachedCovered(g, rank, first, last, y);
        }
      }
    }
  }

  /** Every segment first taken for flushed is in the view, or replaced in it, through and through, by its parents. */
  lemma FlushedCovered(g: Lineage, rank: map<ID, nat>, first: Sets, last: Sets, x: ID)
    requires Ranked(g, rank) && IsFirst(g, first) && IsResult(g, first, last) && x in Flushed(first)
    ensures Covered(g, rank, Flushed(last), x)
  {
    if x in g.start {
      StartReached(g, x);
      ReachedCovered(g, rank, first, last, x);
    }
  }

  // ---------------------------------------------------------------- no double counting

  /** A chain of parents: each segment was compacted into the one before it. */
  ghost predicate IsChain(g: Lineage, p: seq<ID>) {
    |p| > 0 && forall k :: 0 < k < |p| ==> IsParent(g, p[k], p[k - 1])
  }

  ghost predicate Ancestor(g: Lineage, x: ID, y: ID) {
    exists p :: IsChain(g, p) && |p| > 1 && p[0] == y && p[|p| - 1] == x
  }

  ghost predicate SingleChild(g: Lineage) {
    forall a, b, y :: IsParent(g, y, a) && IsParent(g, y, b) ==> a == b
  }

  ghost predicate Antichain(g: Lineage, s: set<ID>) {
    forall x, y :: x in s && y in s ==> !Ancestor(g, x, y)
  }

  /** How a member of the view came into it: from a segment first taken for flushed, through segments replaced. */
  ghost predicate IsOrigin(g: Lineage, first: Sets, p: seq<ID>, x: ID) {
    && IsChain(g, p) && p[|p| - 1] == x
    && p[0] in Flushed(first)
    && (|p| > 1 ==> p[0] in g.start)
    && (forall k :: 0 <= k < |p| - 1 ==> Expandable(g, p[k]))
    && (forall k :: 0 < k < |p| - 1 ==> p[k] !in g.indexed)
  }

  lemma TrailIsOrigin(g: Lineage, first: Sets, p: seq<ID>)
    requires IsFirst(g, first) && IsTrail(g, p)
    ensures IsOrigin(g, first, p, p[|p| - 1])
  {
    forall k | 0 < k < |p| ensures IsParent(g, p[k], p[k - 1]) && p[k] !in g.indexed {
      assert Link(g, p, k);
    }
    forall k | 0 <= k < |p| - 1 ensures Expandable(g, p[k]) {
      assert Link(g, p, k + 1);
    }
  }

  lemma ParentOfTrail(g: Lineage, first: Sets, p: seq<ID>, x: ID)
    requires IsFirst(g, first) && IsTrail(g, p) && Expandable(g, p[|p| - 1]) && IsParent(g, x, p[|p| - 1])
    ensures IsOrigin(g, first, p + [x], x)
  {
    TrailIsOrigin(g, first, p);
    forall k | 0 < k < |p| ensures p[k] !in g.indexed {
      assert Link(g, p, k);
    }
  }

  lemma FindOrigin(g: Lineage, first: Sets, last: Sets, x: ID) returns (p: seq<ID>)
    requires IsFirst(g, first) && IsResult(g, first, last) && x in Flushed(last)
    ensures IsOrigin(g, first, p, x)
  {
    if x in last.unIndexed {
      p :| IsTrail(g, p) && p[|p| - 1] == x;
      TrailIsOrigin(g, first, p);
    } else if x in first.indexed {
      p := [x];
    } else {
      var w :| Reached(g, w) && Expandable(g, w) && IsParent(g, x, w);
      var q :| IsTrail(g, q) && q[|q| - 1] == w;
      ParentOfTrail(g, first, q, x);
      p := q + [x];
    }
  }

  lemma AncestorInChain(g: Lineage, p: seq<ID>, j: nat)
    requires IsChain(g, p) && 0 < j < |p|
    ensures Ancestor(g, p[j], p[0])
  {
    var r := p[..j + 1];
    assert IsChain(g, r) && r[0] == p[0] && r[|r| - 1] == p[j];
  }

  /** Two chains that end alike agree as far back as both go, when every segment has one child. */
  lemma {:induction false} SameTail(g: Lineage, p: seq<ID>, q: seq<ID>, k: nat)
    requires SingleChild(g) && IsChain(g, p) && IsChain(g, q) && p[|p| - 1] == q[|q| - 1]
    requires k < |p| && k < |q|
    ensures p[|p| - 1 - k] == q[|q| - 1 - k]
  {
    if k == 0 {
    } else {
      SameTail(g, p, q, k - 1);
      assert IsParent(g, p[|p| - k], p[|p| - k - 1]) && IsParent(g, q[|q| - k], q[|q| - k - 1]);
    }
  }

  lemma JoinChains(g: Lineage, p: seq<ID>, q: seq<ID>)
    requires IsChain(g, p) && IsChain(g, q) && p[|p| - 1] == q[0]
    ensures IsChain(g, p + q[1..])
  {
  }

  /** What a chain between two flushed segments must look like for the one to give way to the other: it is left behind
      segment by segment, and where it ends nothing that stays in the view is replaced in turn. */
  ghost predicate GivesWay(g: Lineage, first: Sets, p: seq<ID>)
    requires |p| > 1
  {
    && p[0] in g.start
    && (forall k :: 0 <= k < |p| - 1 ==> Expandable(g, p[k]))
    && (forall k :: 0 < k < |p| - 1 ==> p[k] !in g.indexed)
    && (p[|p| - 1] in first.indexed ==> p[|p| - 1] in g.indexed || !Expandable(g, p[|p| - 1]))
  }

  ghost predicate AllGiveWay(g: Lineage, first: Sets) {
    forall p :: IsChain(g, p) && |p| > 1 && p[0] in Flushed(first) && p[|p| - 1] in Flushed(first) ==>
      GivesWay(g, first, p)
  }

  lemma ChainPrefix(g: Lineage, p: seq<ID>, j: nat)
    requires IsChain(g, p) && j < |p|
    ensures IsChain(g, p[..j + 1])
  {
  }

  /** A segment that is replaced on the way from a flushed one is not in the view. */
  lemma ReplacedIsGone(g: Lineage, first: Sets, last: Sets, p: seq<ID>, j: nat)
    requires IsFirst(g, first) && IsResult(g, first, last) && AllGiveWay(g, first)
    requires IsChain(g, p) && j < |p| && p[0] in Flushed(first) && Expandable(g, p[j])
    requires if j == 0 then p[j] in g.start else p[j] !in g.indexed
    ensures p[j] !in Flushed(last)
  {
    if j > 0 {
      var q := p[..j + 1];
      ChainPrefix(g, p, j);
      assert p[j] in Flushed(first) ==> GivesWay(g, first, q);
    }
  }

  /** Before the origin of a segment in the view, every segment from a flushed one on has given way. */
  lemma GoneBeforeOrigin(g: Lineage, first: Sets, last: Sets, p: seq<ID>, r: seq<ID>, j: nat)
    requires SingleChild(g) && IsFirst(g, first) && IsResult(g, first, last) && AllGiveWay(g, first)
    requires IsChain(g, p) && IsChain(g, r) && p[|p| - 1] == r[|r| - 1]
    requires p[0] in Flushed(first) && r[0] in Flushed(first) && j + |p| < |r|
    ensures r[j] !in Flushed(last)
  {
    SameTail(g, p, r, |p| - 1);
    var w := r[..|r| - |p| + 1];
    ChainPrefix(g, r, |r| - |p|);
    assert GivesWay(g, first, w) && r[j] == w[j];
    ReplacedIsGone(g, first, last, r, j);
  }

  /** And so has every segment it came through. */
  lemma GoneOnOrigin(g: Lineage, first: Sets, last: Sets, p: seq<ID>, r: seq<ID>, j: nat)
    requires SingleChild(g) && IsFirst(g, first) && IsResult(g, first, last) && AllGiveWay(g, first)
    requires IsChain(g, r) && IsOrigin(g, first, p, r[|r| - 1]) && |r| - |p| <= j < |r| - 1
    ensures r[j] !in Flushed(last)
  {
    SameTail(g, p, r, |r| - 1 - j);
    ReplacedIsGone(g, first, last, p, j + |p| - |r|);
  }

  lemma AncestorIsAlone(g: Lineage, first: Sets, last: Sets, c: seq<ID>)
    requires SingleChild(g) && IsFirst(g, first) && IsResult(g, first, last) && AllGiveWay(g, first)
    requires IsChain(g, c) && |c| > 1 && c[|c| - 1] in Flushed(last)
    ensures c[0] !in Flushed(last)
  {
    if c[0] in Flushed(last) {
      var p := FindOrigin(g, first, last, c[|c| - 1]);
      var q := FindOrigin(g, first, last, c[0]);
      JoinChains(g, q, c);
      var r, j := q + c[1..], |q| - 1;
      assert r[|r| - 1] == c[|c| - 1] && r[j] == c[0];
      if j + |p| < |r| {
        GoneBeforeOrigin(g, first, last, p, r, j);
      } else {
        GoneOnOrigin(g, first, last, p, r, j);
      }
    }
  }

  lemma GivingWayIsEnough(g: Lineage, first: Sets, last: Sets)
    requires SingleChild(g) && IsFirst(g, first) && IsResult(g, first, last) && AllGiveWay(g, first)
    ensures Antichain(g, Flushed(last))
  {
    forall x, y | x in Flushed(last) && y in Flushed(last) ensures !Ancestor(g, x, y) {
      if c :| IsChain(g, c) && |c| > 1 && c[0] == y && c[|c| - 1] == x {
        AncestorIsAlone(g, first, last, c);
      }
    }
  }

  /** Data that is covered is in the view at the end of some chain of parents. */
  lemma {:induction false} CoveredSomewhere(
    g: Lineage, rank: map<ID, nat>, flushed: set<ID>, x: ID)
    returns (p: seq<ID>)
    requires Ranked(g, rank) && Covered(g, rank, flushed, x)
    ensures IsChain(g, p) && p[0] == x && p[|p| - 1] in flushed
    decreases if x in rank then rank[x] else 0
  {
    if x in flushed {
      p := [x];
    } else {
      var y := g.from[x][0];
      assert IsParent(g, y, x);
      var q := CoveredSomewhere(g, rank, flushed, y);
      p := [x] + q;
    }
  }

  /** Where the view holds no segment with an ancestor, nothing on a chain to covered data is in it. */
  lemma AboveCovered(g: Lineage, rank: map<ID, nat>, last: Sets, p: seq<ID>, k: nat)
    requires Ranked(g, rank) && Antichain(g, Flushed(last)) && IsChain(g, p) && k < |p| - 1
    requires Covered(g, rank, Flushed(last), p[|p| - 1])
    ensures p[k] !in Flushed(last)
  {
    var q := CoveredSomewhere(g, rank, Flushed(last), p[|p| - 1]);
    JoinChains(g, p, q);
    var r := p + q[1..];
    assert r[|r| - 1] == q[|q| - 1];
    ChainSuffix(g, r, k);
    assert Ancestor(g, r[|r| - 1], p[k]);
  }

  lemma ChainSuffix(g: Lineage, p: seq<ID>, k: nat)
    requires IsChain(g, p) && k < |p| - 1
    ensures Ancestor(g, p[|p| - 1], p[k])
  {
    var r := p[k..];
    forall i | 0 < i < |r| ensures IsParent(g, r[i], r[i - 1]) {
      assert r[i] == p[k + i] && r[i - 1] == p[k + i - 1];
    }
    assert IsChain(g, r) && r[0] == p[k] && r[|r| - 1] == p[|p| - 1];
  }

  /** And so every segment of the chain is reached and replaced, but for the last. */
  lemma {:induction false} ChainReached(g: Lineage, first: Sets, last: Sets, p: seq<ID>, k: nat)
    requires IsFirst(g, first) && IsResult(g, first, last) && IsChain(g, p) && p[0] in Flushed(first)
    requires k < |p| - 1 && forall i :: 0 <= i < |p| - 1 ==> p[i] !in Flushed(last)
    ensures Reached(g, p[k]) && Expandable(g, p[k]) && (if k == 0 then p[k] in g.start else p[k] !in g.indexed)
  {
    if k == 0 {
      StartReached(g, p[0]);
    } else {
      ChainReached(g, first, last, p, k - 1);
      assert IsParent(g, p[k], p[k - 1]);
      assert Replacing(g, p[k]);
      ParentReached(g, p[k - 1], p[k]);
    }
  }

  lemma EndStays(g: Lineage, rank: map<ID, nat>, first: Sets, last: Sets, y: ID, z: ID)
    requires Ranked(g, rank) && IsFirst(g, first) && IsResult(g, first, last) && Antichain(g, Flushed(last))
    requires Reached(g, y) && Expandable(g, y) && IsParent(g, z, y) && z in first.indexed
    ensures z in g.indexed || !Expandable(g, z)
  {
    if z !in g.indexed && Expandable(g, z) {
      ParentReached(g, y, z);
      var w := g.from[z][0];
      assert IsParent(g, w, z);
      assert Replacing(g, w);
      if w !in g.indexed {
        ParentReached(g, z, w);
        ReachedCovered(g, rank, first, last, w);
      }
      assert IsChain(g, [z, w]);
      AboveCovered(g, rank, last, [z, w], 0);
    }
  }

  lemma GivesWayIfAlone(g: Lineage, rank: map<ID, nat>, first: Sets, last: Sets, p: seq<ID>)
    requires Ranked(g, rank) && IsFirst(g, first) && IsResult(g, first, last) && Antichain(g, Flushed(last))
    requires IsChain(g, p) && |p| > 1 && p[0] in Flushed(first) && p[|p| - 1] in Flushed(first)
    ensures GivesWay(g, first, p)
  {
    FlushedCovered(g, rank, first, last, p[|p| - 1]);
    forall k | 0 <= k < |p| - 1 ensures p[k] !in Flushed(last) {
      AboveCovered(g, rank, last, p, k);
    }
    forall k | 0 <= k < |p| - 1
      ensures Expandable(g, p[k]) && (if k == 0 then p[k] in g.start else p[k] !in g.indexed)
    {
      ChainReached(g, first, last, p, k);
    }
    if p[|p| - 1] in first.indexed {
      ChainReached(g, first, last, p, |p| - 2);
      assert IsParent(g, p[|p| - 1], p[|p| - 2]);
      EndStays(g, rank, first, last, p[|p| - 2], p[|p| - 1]);
    }
  }

  /** When every segment was compacted into at most one other: the view never holds a segment together with one of its
      ancestors if and only if, between any two flushed segments, the later one gives way. */
  lemma DoubleCountsExactlyWhen(g: Lineage, rank: map<ID, nat>, first: Sets, last: Sets)
    requires Ranked(g, rank) && SingleChild(g) && IsFirst(g, first) && IsResult(g, first, last)
    ensures Antichain(g, Flushed(last)) <==> AllGiveWay(g, first)
  {
    if AllGiveWay(g, first) {
      GivingWayIsEnough(g, first, last);
    }
    if Antichain(g, Flushed(last)) {
      forall p | IsChain(g, p) && |p| > 1 && p[0] in Flushed(first) && p[|p| - 1] in Flushed(first)
        ensures GivesWay(g, first, p)
      {
        GivesWayIfAlone(g, rank, first, last, p);
      }
    }
  }

  /** In particular if no two flushed segments are related to begin with. */
  lemma NoDoubleCounting(g: Lineage, first: Sets, last: Sets)
    requires SingleChild(g) && IsFirst(g, first) && IsResult(g, first, last) && Antichain(g, Flushed(first))
    ensures Antichain(g, Flushed(last))
  {
    forall p | IsChain(g, p) && |p| > 1 ensures p[0] !in Flushed(first) || p[|p| - 1] !in Flushed(first) {
      assert Ancestor(g, p[|p| - 1], p[0]);
    }
    GivingWayIsEnough(g, first, last);
  }

  // ---------------------------------------------------------------- and when it happens

  // Segment 3 was compacted from 2, and 2 from 1. 3 has no index; 2 is flushed, and too small to need one;
  // 1 is dropped.

  const SMALL_PARENT := Lineage(map[1 := [], 2 := [1], 3 := [2]], {}, {3})
  const SMALL_FIRST := Sets({3}, {2}, {1})
  const SMALL_LAST := Sets({1}, {2}, {})

  /** A small flushed parent stays in the view although it is replaced in turn: it counts together with its parent. */
  lemma SmallParentCountsTwice()
    ensures IsFirst(SMALL_PARENT, SMALL_FIRST) && IsResult(SMALL_PARENT, SMALL_FIRST, SMALL_LAST)
    ensures Ancestor(SMALL_PARENT, 1, 2) && 1 in Flushed(SMALL_LAST) && 2 in Flushed(SMALL_LAST)
    ensures !AllGiveWay(SMALL_PARENT, SMALL_FIRST)
  {
    var g := SMALL_PARENT;
    StartReached(g, 3);
    ParentReached(g, 3, 2);
    ParentReached(g, 2, 1);
    forall x | Reached(g, x) ensures x in {1, 2, 3} {
      var p :| IsTrail(g, p) && p[|p| - 1] == x;
      TrailWithin(g, {1, 2, 3}, p, |p| - 1);
    }
    assert Replacing(g, 1) && Replacing(g, 2);
    AncestorInChain(g, [2, 1], 1);
    assert IsChain(g, [3, 2]) && !GivesWay(g, SMALL_FIRST, [3, 2]);
  }
}
