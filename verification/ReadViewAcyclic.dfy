/** A lineage in which no segment is its own ancestor can be ranked, so that parents rank below their children. */
module ReadViewAcyclic {
  import opened ReadView

  ghost predicate Acyclic(g: Lineage) {
    forall x :: !Ancestor(g, x, x)
  }

  ghost predicate HasParentIn(g: Lineage, s: set<ID>, x: ID) {
    exists y :: y in s && IsParent(g, y, x)
  }

  /** Every member of `s` has a parent in `s`. */
  ghost predicate Endless(g: Lineage, s: set<ID>) {
    forall x {:trigger HasParentIn(g, s, x)} :: x in s ==> HasParentIn(g, s, x)
  }

  lemma {:induction false} LongChain(g: Lineage, s: set<ID>, x: ID, n: nat) returns (p: seq<ID>)
    requires Endless(g, s) && x in s
    ensures |p| == n + 1 && IsChain(g, p) && forall k :: 0 <= k < |p| ==> p[k] in s
  {
    if n == 0 {
      p := [x];
    } else {
      var q := LongChain(g, s, x, n - 1);
      assert HasParentIn(g, s, q[|q| - 1]);
      var y :| y in s && IsParent(g, y, q[|q| - 1]);
      p := q + [y];
    }
  }

  lemma {:induction false} NoMoreThan(p: seq<ID>, s: set<ID>)
    requires forall k :: 0 <= k < |p| ==> p[k] in s
    requires forall i, j :: 0 <= i < j < |p| ==> p[i] != p[j]
    ensures |p| <= |s|
  {
    if |p| == 0 {
    } else {
      var last := p[|p| - 1];
      NoMoreThan(p[..|p| - 1], s - {last});
    }
  }

  lemma NotEndless(g: Lineage, s: set<ID>, x: ID)
    requires Acyclic(g) && x in s
    ensures !Endless(g, s)
  {
    if Endless(g, s) {
      var p := LongChain(g, s, x, |s|);
      if forall i, j :: 0 <= i < j < |p| ==> p[i] != p[j] {
        NoMoreThan(p, s);
      } else {
        var i, j :| 0 <= i < j < |p| && p[i] == p[j];
        ChainWithin(g, p, i, j);
      }
    }
  }

  lemma ChainWithin(g: Lineage, p: seq<ID>, i: nat, j: nat)
    requires IsChain(g, p) && i < j < |p|
    ensures Ancestor(g, p[j], p[i])
  {
    var r := p[i..j + 1];
    forall k | 0 < k < |r| ensures IsParent(g, r[k], r[k - 1]) {
      assert r[k] == p[i + k] && r[k - 1] == p[i + k - 1];
    }
    assert IsChain(g, r) && r[0] == p[i] && r[|r| - 1] == p[j];
  }

  /** What has been ranked so far holds its own known parents, and its ranks are below their number. */
  ghost predicate RankedSoFar(g: Lineage, rank: map<ID, nat>) {
    && (forall x :: x in rank ==> x in g.from && rank[x] < |rank.Keys|)
    && (forall x, y :: x in rank && y in g.from && IsParent(g, y, x) ==> y in rank && rank[y] < rank[x])
  }

  lemma RankNext(g: Lineage, rank: map<ID, nat>, x: ID)
    requires RankedSoFar(g, rank) && x in g.from && x !in rank
    requires forall y :: y in g.from && y !in rank ==> !IsParent(g, y, x)
    ensures RankedSoFar(g, rank[x := |rank.Keys|])
  {
  }

  lemma {:induction false} RankRest(g: Lineage, rank: map<ID, nat>) returns (full: map<ID, nat>)
    requires Acyclic(g) && RankedSoFar(g, rank)
    ensures Ranked(g, full)
    decreases |g.from.Keys - rank.Keys|
  {
    var rest := g.from.Keys - rank.Keys;
    if x :| x in rest && forall y :: y in rest ==> !IsParent(g, y, x) {
      RankNext(g, rank, x);
      var more := rank[x := |rank.Keys|];
      assert g.from.Keys - more.Keys == rest - {x};
      full := RankRest(g, more);
    } else {
      full := rank;
      assert Endless(g, rest);
      forall x | x in g.from ensures x in rank {
        if x !in rank {
          NotEndless(g, rest, x);
        }
      }
    }
  }

  lemma AcyclicIsRanked(g: Lineage) returns (rank: map<ID, nat>)
    requires Acyclic(g)
    ensures Ranked(g, rank)
  {
    rank := RankRest(g, map[]);
  }

  // ---------------------------------------------------------------- segment IDs that increase

  lemma {:induction false} ChainDescends(g: Lineage, p: seq<ID>, n: nat)
    requires IsChain(g, p) && (forall x, y :: IsParent(g, y, x) ==> y < x) && 0 < n < |p|
    ensures p[n] < p[0]
  {
    if n == 1 {
      assert IsParent(g, p[1], p[0]);
    } else {
      ChainDescends(g, p, n - 1);
      assert IsParent(g, p[n], p[n - 1]);
    }
  }

  /** No lineage is circular in which every segment has a larger ID than those it was compacted from. */
  lemma SmallerParentsAcyclic(g: Lineage)
    requires forall x, y :: IsParent(g, y, x) ==> y < x
    ensures Acyclic(g)
  {
    forall x ensures !Ancestor(g, x, x) {
      if Ancestor(g, x, x) {
        var p :| IsChain(g, p) && |p| > 1 && p[0] == x && p[|p| - 1] == x;
        ChainDescends(g, p, |p| - 1);
        assert false;
      }
    }
  }
}
