/** The loop that replaces segments without an index by their parents, over sets that change while they are ranged
    over. Whatever the order, it stops, and its result is the one described in `ReadView`. */
module ReadViewRetrieve {
  import opened Orders
  import opened ReadView

  // ---------------------------------------------------------------- why it stops

  /** One more than the weights of all parents together: replacing a segment by its parents makes a set lighter. */
  ghost function Weight(g: Lineage, rank: map<ID, nat>, x: ID): nat
    requires Ranked(g, rank) && x in g.from
    decreases rank[x], |g.from[x]| + 1
  {
    1 + ParentsWeight(g, rank, x, |g.from[x]|)
  }

  ghost function ParentsWeight(g: Lineage, rank: map<ID, nat>, x: ID, n: nat): nat
    requires Ranked(g, rank) && x in g.from && n <= |g.from[x]|
    decreases rank[x], n
  {
    if n == 0 then 0
    else
      var y := g.from[x][n - 1];
      assert IsParent(g, y, x);
      ParentsWeight(g, rank, x, n - 1) + if y in g.from then Weight(g, rank, y) else 0
  }

  ghost function Total(g: Lineage, rank: map<ID, nat>, ids: seq<ID>, n: nat, s: set<ID>): nat
    requires Ranked(g, rank) && n <= |ids| && forall k :: 0 <= k < |ids| ==> ids[k] in g.from
  {
    if n == 0 then 0
    else Total(g, rank, ids, n - 1, s) + if ids[n - 1] in s then Weight(g, rank, ids[n - 1]) else 0
  }

  lemma {:induction false} SameTotal(g: Lineage, rank: map<ID, nat>, ids: seq<ID>, n: nat, s: set<ID>, t: set<ID>)
    requires Ranked(g, rank) && n <= |ids| && forall k :: 0 <= k < |ids| ==> ids[k] in g.from
    requires forall k :: 0 <= k < n ==> (ids[k] in s <==> ids[k] in t)
    ensures Total(g, rank, ids, n, s) == Total(g, rank, ids, n, t)
  {
    if n == 0 {
    } else {
      SameTotal(g, rank, ids, n - 1, s, t);
    }
  }

  lemma {:induction false} TotalWith(g: Lineage, rank: map<ID, nat>, ids: seq<ID>, n: nat, s: set<ID>, y: ID)
    requires Ranked(g, rank) && n <= |ids| && Enumerates(ids, g.from.Keys) && y in g.from
    ensures Total(g, rank, ids, n, s + {y}) <= Total(g, rank, ids, n, s) + Weight(g, rank, y)
  {
    if n == 0 {
    } else {
      if ids[n - 1] == y {
        SameTotal(g, rank, ids, n - 1, s, s + {y});
      } else {
        TotalWith(g, rank, ids, n - 1, s, y);
      }
    }
  }

  lemma {:induction false} TotalWithout(g: Lineage, rank: map<ID, nat>, ids: seq<ID>, n: nat, s: set<ID>, j: nat)
    requires Ranked(g, rank) && j < n <= |ids| && Enumerates(ids, g.from.Keys) && ids[j] in s
    ensures Total(g, rank, ids, n, s - {ids[j]}) == Total(g, rank, ids, n, s) - Weight(g, rank, ids[j])
  {
    if j == n - 1 {
      SameTotal(g, rank, ids, n - 1, s, s - {ids[j]});
    } else {
      TotalWithout(g, rank, ids, n - 1, s, j);
    }
  }

  lemma TotalRemoved(g: Lineage, rank: map<ID, nat>, ids: seq<ID>, s: set<ID>, x: ID)
    requires Ranked(g, rank) && Enumerates(ids, g.from.Keys) && x in s && x in g.from
    ensures Total(g, rank, ids, |ids|, s - {x}) == Total(g, rank, ids, |ids|, s) - Weight(g, rank, x)
  {
    assert x in ids;
    var j: nat :| j < |ids| && ids[j] == x;
    TotalWithout(g, rank, ids, |ids|, s, j);
  }

  /** `s` with those of the first `k` parents of `x` that have no index. */
  ghost function WithParents(g: Lineage, s: set<ID>, x: ID, k: nat): set<ID>
    requires x in g.from && k <= |g.from[x]|
  {
    if k == 0 then s
    else WithParents(g, s, x, k - 1) + if g.from[x][k - 1] in g.indexed then {} else {g.from[x][k - 1]}
  }

  lemma {:induction false} ParentsAdded(g: Lineage, s: set<ID>, x: ID, k: nat, y: ID)
    requires x in g.from && k <= |g.from[x]|
    ensures y in WithParents(g, s, x, k) <==> y in s || (y in g.from[x][..k] && y !in g.indexed)
  {
    if k == 0 {
    } else {
      ParentsAdded(g, s, x, k - 1, y);
      assert g.from[x][..k] == g.from[x][..k - 1] + [g.from[x][k - 1]];
    }
  }

  /** Taking in parents adds at most their weights. */
  lemma {:induction false} ParentsWeigh(g: Lineage, rank: map<ID, nat>, ids: seq<ID>, s: set<ID>, x: ID, k: nat)
    requires Ranked(g, rank) && Enumerates(ids, g.from.Keys) && Expandable(g, x) && k <= |g.from[x]|
    ensures Total(g, rank, ids, |ids|, WithParents(g, s, x, k))
      <= Total(g, rank, ids, |ids|, s) + ParentsWeight(g, rank, x, k)
  {
    if k == 0 {
    } else {
      ParentsWeigh(g, rank, ids, s, x, k - 1);
      var before, y := WithParents(g, s, x, k - 1), g.from[x][k - 1];
      TotalWith(g, rank, ids, |ids|, before, y);
      assert before + {} == before;
    }
  }

  // ---------------------------------------------------------------- how far it has come

  ghost predicate ParentOfAny(g: Lineage, done: set<ID>, y: ID) {
    exists x :: x in done && IsParent(g, y, x)
  }

  /** The segments in `done` have been replaced, and nothing else has happened. */
  ghost predicate Progress(g: Lineage, first: Sets, s: Sets, done: set<ID>) {
    && (forall x :: x in s.unIndexed ==> x in g.from)
    && (forall x :: x in s.unIndexed ==> Reached(g, x) && (x in g.start || ParentOfAny(g, done, x)))
    && (forall x :: x in done ==> Reached(g, x) && Expandable(g, x))
    && (forall x :: x in g.start ==> x in s.unIndexed || x in done)
    && (forall x, y :: x in done && IsParent(g, y, x) ==> y in g.indexed || y in s.unIndexed || y in done)
    && (forall y :: y in s.indexed <==> y in first.indexed || (y in g.indexed && ParentOfAny(g, done, y)))
    && (forall y :: y in s.dropped <==> y in first.dropped && !ParentOfAny(g, done, y))
  }

  lemma ProgressStarts(g: Lineage, first: Sets)
    requires IsFirst(g, first)
    ensures Progress(g, first, first, {})
  {
    forall x | x in g.start ensures Reached(g, x) {
      StartReached(g, x);
    }
  }

  /** Throughout, nothing is both flushed and dropped. */
  lemma ProgressApart(g: Lineage, first: Sets, s: Sets, done: set<ID>)
    requires IsFirst(g, first) && Progress(g, first, s, done)
    ensures s.dropped !! Flushed(s)
  {
    forall y | y in s.dropped ensures y !in Flushed(s) {
      assert y in first.dropped && y !in g.start && y !in first.indexed && !ParentOfAny(g, done, y);
    }
  }

  /** `t` is `s` after `x` has been replaced by its parents. */
  ghost predicate IsExpansion(g: Lineage, s: Sets, t: Sets, x: ID) {
    && (forall y :: y in t.unIndexed <==> y != x && (y in s.unIndexed || (IsParent(g, y, x) && y !in g.indexed)))
    && (forall y :: y in t.indexed <==> y in s.indexed || (IsParent(g, y, x) && y in g.indexed))
    && (forall y :: y in t.dropped <==> y in s.dropped && !IsParent(g, y, x))
  }

  lemma ExpansionIsLighter(g: Lineage, rank: map<ID, nat>, ids: seq<ID>, s: Sets, t: Sets, x: ID)
    requires Ranked(g, rank) && Enumerates(ids, g.from.Keys)
    requires Expandable(g, x) && x in s.unIndexed && IsExpansion(g, s, t, x)
    ensures Total(g, rank, ids, |ids|, t.unIndexed) < Total(g, rank, ids, |ids|, s.unIndexed)
  {
    var n := |g.from[x]|;
    var all := WithParents(g, s.unIndexed, x, n);
    forall y ensures y in all <==> y in s.unIndexed || (IsParent(g, y, x) && y !in g.indexed) {
      ParentsAdded(g, s.unIndexed, x, n, y);
      assert g.from[x][..n] == g.from[x];
    }
    assert t.unIndexed == all - {x} by {
      assert forall y :: y in t.unIndexed <==> y in all - {x};
    }
    ParentsWeigh(g, rank, ids, s.unIndexed, x, n);
    TotalRemoved(g, rank, ids, all, x);
  }

  lemma ParentOfMore(g: Lineage, done: set<ID>, x: ID, y: ID)
    ensures ParentOfAny(g, done + {x}, y) <==> ParentOfAny(g, done, y) || IsParent(g, y, x)
  {
  }

  lemma ExpansionProgresses(g: Lineage, first: Sets, s: Sets, t: Sets, done: set<ID>, x: ID)
    requires Progress(g, first, s, done) && x in s.unIndexed && Expandable(g, x) && IsExpansion(g, s, t, x)
    ensures Progress(g, first, t, done + {x})
  {
    forall y ensures ParentOfAny(g, done + {x}, y) <==> ParentOfAny(g, done, y) || IsParent(g, y, x) {
      ParentOfMore(g, done, x, y);
    }
    forall y | y in t.unIndexed ensures y in g.from && Reached(g, y) {
      if y !in s.unIndexed {
        ParentReached(g, x, y);
      }
    }
  }

  lemma NothingMissed(g: Lineage, first: Sets, s: Sets, done: set<ID>, x: ID)
    requires Progress(g, first, s, done) && (forall y :: y in s.unIndexed ==> !Expandable(g, y)) && Reached(g, x)
    ensures x in s.unIndexed || x in done
  {
    var all := s.unIndexed + done;
    forall y | y in g.start ensures y in all {
    }
    var p :| IsTrail(g, p) && p[|p| - 1] == x;
    TrailWithin(g, all, p, |p| - 1);
  }

  lemma ProgressEnds(g: Lineage, first: Sets, s: Sets, done: set<ID>)
    requires Progress(g, first, s, done) && forall x :: x in s.unIndexed ==> !Expandable(g, x)
    ensures IsResult(g, first, s)
  {
    forall x | Reached(g, x) ensures x in s.unIndexed || x in done {
      NothingMissed(g, first, s, done, x);
    }
    forall y ensures Replacing(g, y) <==> ParentOfAny(g, done, y) {
    }
  }

  // ---------------------------------------------------------------- the loop

  /** Replaces one segment by its parents. */
  method Expand(g: Lineage, x: ID, s: Sets) returns (t: Sets, more: bool)
    requires Expandable(g, x) && x in s.unIndexed
    ensures IsExpansion(g, s, t, x)
    ensures more <==> exists y :: IsParent(g, y, x) && y !in g.indexed
  {
    var from := g.from[x];
    var unIndexed, indexed := s.unIndexed, s.indexed;
    more := false;
    for k := 0 to |from|
      invariant forall y :: y in s.unIndexed ==> y in unIndexed
      invariant forall y :: y in unIndexed ==> y in s.unIndexed || (y in from && y !in g.indexed)
      invariant forall i :: 0 <= i < k && from[i] !in g.indexed ==> from[i] in unIndexed && more
      invariant forall y :: y in s.indexed ==> y in indexed
      invariant forall y :: y in indexed ==> y in s.indexed || (y in from && y in g.indexed)
      invariant forall i :: 0 <= i < k && from[i] in g.indexed ==> from[i] in indexed
      invariant more ==> exists y :: IsParent(g, y, x) && y !in g.indexed
    {
      if from[k] in g.indexed {
        indexed := indexed + {from[k]};
      } else {
        unIndexed := unIndexed + {from[k]};
        more := true;
        assert IsParent(g, from[k], x);
      }
    }
    t := Sets(unIndexed - {x}, indexed, s.dropped - set y | y in from);
  }

  /** One pass over the segments without an index. Those present at the start are all met, unless met before; those
      that come in on the way may be met or not. */
  method RetrieveUnIndexed(
    g: Lineage, first: Sets, s0: Sets, ghost rank: map<ID, nat>, ghost ids: seq<ID>, ghost done0: set<ID>)
    returns (s: Sets, again: bool, ghost done: set<ID>)
    requires Ranked(g, rank) && Enumerates(ids, g.from.Keys)
    requires Progress(g, first, s0, done0)
    ensures Progress(g, first, s, done)
    ensures again ==> Total(g, rank, ids, |ids|, s.unIndexed) < Total(g, rank, ids, |ids|, s0.unIndexed)
    ensures !again ==> forall x :: x in s.unIndexed ==> !Expandable(g, x)
  {
    s, again, done := s0, false, done0;
    var pending, met := s.unIndexed, {};
    while |s.unIndexed - met| != 0
      invariant Progress(g, first, s, done)
      invariant forall x :: x in pending ==> x in s.unIndexed && x !in met
      invariant !again ==> forall x :: x in s.unIndexed ==> x in pending || !Expandable(g, x)
      invariant Total(g, rank, ids, |ids|, s.unIndexed) <= Total(g, rank, ids, |ids|, s0.unIndexed)
      invariant again ==> Total(g, rank, ids, |ids|, s.unIndexed) < Total(g, rank, ids, |ids|, s0.unIndexed)
      decreases Total(g, rank, ids, |ids|, s.unIndexed), |s.unIndexed - met|
    {
      if |pending| == 0 {
        var stop: bool := *;
        if stop {
          break;
        }
      }
      var x := AnyOf(s.unIndexed - met);
      ghost var left := s.unIndexed - met;
      met, pending := met + {x}, pending - {x};
      if Expandable(g, x) {
        var t, more := Expand(g, x, s);
        ExpansionIsLighter(g, rank, ids, s, t, x);
        ExpansionProgresses(g, first, s, t, done, x);
        met := met - (t.unIndexed - s.unIndexed);
        s, again, done := t, again || more, done + {x};
      } else {
        assert s.unIndexed - met == left - {x};
      }
    }
    forall x ensures x !in pending {
      assert x in pending ==> x in s.unIndexed - met;
    }
  }

  /** For every order in which the sets are ranged over, the loop ends, with the one result there is. */
  method Retrieve(g: Lineage, first: Sets, ghost rank: map<ID, nat>) returns (last: Sets)
    requires Ranked(g, rank) && IsFirst(g, first)
    ensures IsResult(g, first, last)
  {
    ghost var ids := EnumerationExists(g.from.Keys);
    ghost var done := {};
    ProgressStarts(g, first);
    var again := true;
    last := first;
    while again
      invariant Progress(g, first, last, done)
      invariant !again ==> forall x :: x in last.unIndexed ==> !Expandable(g, x)
      decreases again, Total(g, rank, ids, |ids|, last.unIndexed)
    {
      last, again, done := RetrieveUnIndexed(g, first, last, rank, ids, done);
    }
    ProgressEnds(g, first, last, done);
  }

  // ---------------------------------------------------------------- why it needs an end to the lineage

  /** Segments replaced one after the other, in whatever passes. */
  ghost predicate Replaces(g: Lineage, states: seq<Sets>, xs: seq<ID>) {
    && |states| == |xs| + 1
    && forall i :: 0 <= i < |xs| ==>
         && xs[i] in states[i].unIndexed && Expandable(g, xs[i])
         && IsExpansion(g, states[i], states[i + 1], xs[i])
  }

  /** It can be replaced, and another one of these, without an index, is among its parents. */
  ghost predicate HasOtherParentIn(g: Lineage, circle: set<ID>, x: ID) {
    Expandable(g, x) && exists y :: y in circle && y != x && IsParent(g, y, x) && y !in g.indexed
  }

  ghost predicate Circular(g: Lineage, circle: set<ID>) {
    forall x {:trigger HasOtherParentIn(g, circle, x)} :: x in circle ==> HasOtherParentIn(g, circle, x)
  }

  ghost predicate SomeIn(circle: set<ID>, s: Sets) {
    exists z :: z in circle && z in s.unIndexed
  }

  lemma CircleStays(g: Lineage, circle: set<ID>, s: Sets, t: Sets, x: ID)
    requires Circular(g, circle) && SomeIn(circle, s) && x in s.unIndexed && IsExpansion(g, s, t, x)
    ensures SomeIn(circle, t)
  {
    var z :| z in circle && z in s.unIndexed;
    if z == x {
      assert HasOtherParentIn(g, circle, x);
      var y :| y in circle && y != x && IsParent(g, y, x) && y !in g.indexed;
      assert y in t.unIndexed;
    }
  }

  lemma {:induction false} CircleStaysOn(g: Lineage, circle: set<ID>, states: seq<Sets>, xs: seq<ID>, m: nat, n: nat)
    requires Circular(g, circle) && Replaces(g, states, xs) && m <= n <= |xs| && SomeIn(circle, states[m])
    ensures SomeIn(circle, states[n])
    decreases n
  {
    if m == n {
    } else {
      CircleStaysOn(g, circle, states, xs, m, n - 1);
      CircleStays(g, circle, states[n - 1], states[n], xs[n - 1]);
    }
  }

  lemma {:induction false} ReplacingProgresses(g: Lineage, first: Sets, states: seq<Sets>, xs: seq<ID>, n: nat)
    requires IsFirst(g, first) && Replaces(g, states, xs) && states[0] == first && n <= |xs|
    ensures Progress(g, first, states[n], Members(xs[..n]))
  {
    if n == 0 {
      ProgressStarts(g, first);
      assert Members(xs[..0]) == {};
    } else {
      var m := n - 1;
      ReplacingProgresses(g, first, states, xs, m);
      assert xs[m] in states[m].unIndexed && Expandable(g, xs[m]) && IsExpansion(g, states[m], states[m + 1], xs[m]);
      ExpansionProgresses(g, first, states[m], states[n], Members(xs[..m]), xs[m]);
      MembersNext(xs, m);
    }
  }

  /** If such a circle is reached, then however many segments have been replaced, there is one left to replace. */
  lemma CircleNeverEnds(g: Lineage, first: Sets, states: seq<Sets>, xs: seq<ID>, circle: set<ID>, z: ID)
    requires IsFirst(g, first) && Replaces(g, states, xs) && states[0] == first
    requires Circular(g, circle) && z in circle && Reached(g, z)
    ensures exists x :: x in states[|xs|].unIndexed && Expandable(g, x)
  {
    var s, done := states[|xs|], Members(xs);
    ReplacingProgresses(g, first, states, xs, |xs|);
    assert xs[..|xs|] == xs && HasOtherParentIn(g, circle, z);
    if z in done {
      var i :| 0 <= i < |xs| && xs[i] == z;
      assert SomeIn(circle, states[i]);
      CircleStaysOn(g, circle, states, xs, i, |xs|);
      var x :| x in circle && x in s.unIndexed;
      assert HasOtherParentIn(g, circle, x);
    } else if forall x :: x in s.unIndexed ==> !Expandable(g, x) {
      NothingMissed(g, first, s, done, z);
      assert false;
    }
  }
}
