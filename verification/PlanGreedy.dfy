/** Greedy selection of segments for a compaction plan. */
module PlanGreedy {

  datatype Seg = Seg(id: int, size: nat, rows: int, single: bool)

  // ---------------------------------------------------------------- sizes

  function SizeTo(s: seq<Seg>, n: nat): nat
    requires n <= |s|
  {
    if n == 0 then 0 else SizeTo(s, n - 1) + s[n - 1].size
  }

  function Size(s: seq<Seg>): nat {
    SizeTo(s, |s|)
  }

  lemma {:induction false} SizeToJoin(a: seq<Seg>, b: seq<Seg>, n: nat)
    requires n <= |b|
    ensures SizeTo(a + b, |a| + n) == Size(a) + SizeTo(b, n)
  {
    if n == 0 {
      SizeToPrefix(a, b, |a|);
    } else {
      SizeToJoin(a, b, n - 1);
    }
  }

  lemma {:induction false} SizeToPrefix(a: seq<Seg>, b: seq<Seg>, n: nat)
    requires n <= |a|
    ensures SizeTo(a + b, n) == SizeTo(a, n)
  {
    if n == 0 {
    } else {
      SizeToPrefix(a, b, n - 1);
    }
  }

  lemma SizeJoin(a: seq<Seg>, b: seq<Seg>)
    ensures Size(a + b) == Size(a) + Size(b)
  {
    SizeToJoin(a, b, |b|);
  }

  lemma SizeOne(s: Seg)
    ensures Size([s]) == s.size
  {
    assert SizeTo([s], 1) == SizeTo([s], 0) + s.size;
  }

  lemma SizeAppend(a: seq<Seg>, s: Seg)
    ensures Size(a + [s]) == Size(a) + s.size
  {
    SizeJoin(a, [s]);
    SizeOne(s);
  }

  // ---------------------------------------------------------------- occurrences

  /** How often a segment occurs among the first `n`. */
  ghost function CountTo(s: seq<Seg>, n: nat, x: Seg): nat
    requires n <= |s|
  {
    if n == 0 then 0 else CountTo(s, n - 1, x) + Is(s[n - 1], x)
  }

  ghost function Count(s: seq<Seg>, x: Seg): nat {
    CountTo(s, |s|, x)
  }

  lemma {:induction false} CountToIs(s: seq<Seg>, n: nat, x: Seg)
    requires n <= |s|
    ensures CountTo(s, n, x) == multiset(s[..n])[x]
  {
    if n == 0 {
    } else {
      CountToIs(s, n - 1, x);
      assert s[..n] == s[..n - 1] + [s[n - 1]];
    }
  }

  lemma CountIs(s: seq<Seg>, x: Seg)
    ensures Count(s, x) == multiset(s)[x]
  {
    CountToIs(s, |s|, x);
    assert s[..|s|] == s;
  }

  lemma CountJoin(a: seq<Seg>, b: seq<Seg>, x: Seg)
    ensures Count(a + b, x) == Count(a, x) + Count(b, x)
  {
    CountIs(a, x);
    CountIs(b, x);
    CountIs(a + b, x);
  }

  lemma CountAppend(a: seq<Seg>, s: Seg, x: Seg)
    ensures Count(a + [s], x) == Count(a, x) + Is(s, x)
  {
    CountJoin(a, [s], x);
    CountOne(s, x);
  }

  lemma CountPrepend(a: seq<Seg>, s: Seg, x: Seg)
    ensures Count([s] + a, x) == Count(a, x) + Is(s, x)
  {
    CountJoin([s], a, x);
    CountOne(s, x);
  }

  function Is(s: Seg, x: Seg): nat {
    if s == x then 1 else 0
  }

  lemma CountOne(s: Seg, x: Seg)
    ensures Count([s], x) == Is(s, x)
  {
    assert CountTo([s], 1, x) == CountTo([s], 0, x) + Is(s, x);
  }

  lemma CountFirst(s: seq<Seg>, x: Seg)
    requires s != []
    ensures Count(s, x) == Count([s[0]], x) + Count(s[1..], x)
  {
    CountJoin([s[0]], s[1..], x);
    assert s == [s[0]] + s[1..];
  }

  // ---------------------------------------------------------------- the rule

  /** What has been selected, what was passed over, and the space left. */
  datatype Pick = Pick(selected: seq<Seg>, left: seq<Seg>, free: int) {
    /** There is room for one more, by number and by size. */
    predicate Takes(s: Seg, max: int) {
      |selected| < max && s.size < free
    }
  }

  /** The first `n` candidates, looked at from the front. */
  function Greedy(c: seq<Seg>, free: int, max: int, n: nat): (p: Pick)
    requires n <= |c|
    ensures |p.selected| + |p.left| == n
  {
    if n == 0 then Pick([], [], free)
    else
      var p := Greedy(c, free, max, n - 1);
      if p.Takes(c[n - 1], max) then Pick(p.selected + [c[n - 1]], p.left, p.free - c[n - 1].size)
      else p.(left := p.left + [c[n - 1]])
  }

  /** The candidates from `n` on, looked at from the back. */
  function ReverseGreedy(c: seq<Seg>, free: int, max: int, n: nat): (p: Pick)
    requires n <= |c|
    ensures |p.selected| + |p.left| == |c| - n
    decreases |c| - n
  {
    if n == |c| then Pick([], [], free)
    else
      var p := ReverseGreedy(c, free, max, n + 1);
      if p.Takes(c[n], max) then Pick(p.selected + [c[n]], p.left, p.free - c[n].size)
      else p.(left := [c[n]] + p.left)
  }

  // ---------------------------------------------------------------- what both promise

  /** The space is accounted for, the limits hold, and nothing passed over would still fit. */
  ghost predicate Selects(p: Pick, free: int, max: int) {
    && p.free == free - Size(p.selected)
    && (p.selected != [] ==> p.free > 0 && |p.selected| <= max)
    && (forall i :: 0 <= i < |p.left| ==> |p.selected| >= max || p.left[i].size >= p.free)
  }

  lemma {:induction false} GreedySelects(c: seq<Seg>, free: int, max: int, n: nat)
    requires n <= |c|
    ensures Selects(Greedy(c, free, max, n), free, max)
  {
    if n == 0 {
    } else {
      GreedySelects(c, free, max, n - 1);
      SizeAppend(Greedy(c, free, max, n - 1).selected, c[n - 1]);
    }
  }

  lemma {:induction false} ReverseGreedySelects(c: seq<Seg>, free: int, max: int, n: nat)
    requires n <= |c|
    ensures Selects(ReverseGreedy(c, free, max, n), free, max)
    decreases |c| - n
  {
    if n == |c| {
    } else {
      ReverseGreedySelects(c, free, max, n + 1);
      SizeAppend(ReverseGreedy(c, free, max, n + 1).selected, c[n]);
    }
  }

  /** Nothing is lost: every candidate is selected or passed over, as often as it was given. */
  lemma {:induction false} GreedyCounts(c: seq<Seg>, free: int, max: int, n: nat, x: Seg)
    requires n <= |c|
    ensures var p := Greedy(c, free, max, n); Count(p.selected, x) + Count(p.left, x) == CountTo(c, n, x)
  {
    if n == 0 {
    } else {
      GreedyCounts(c, free, max, n - 1, x);
      var p := Greedy(c, free, max, n - 1);
      CountAppend(p.selected, c[n - 1], x);
      CountAppend(p.left, c[n - 1], x);
    }
  }

  lemma {:induction false} ReverseGreedyCounts(c: seq<Seg>, free: int, max: int, n: nat, x: Seg)
    requires n <= |c|
    ensures
      var p := ReverseGreedy(c, free, max, n);
      Count(p.selected, x) + Count(p.left, x) == Count(c, x) - CountTo(c, n, x)
    decreases |c| - n
  {
    if n == |c| {
    } else {
      ReverseGreedyCounts(c, free, max, n + 1, x);
      var p := ReverseGreedy(c, free, max, n + 1);
      CountAppend(p.selected, c[n], x);
      CountPrepend(p.left, c[n], x);
    }
  }

  /** What is decided about the first candidates does not depend on the later ones, and is not taken back. */
  lemma {:induction false} GreedyGoesForward(c: seq<Seg>, d: seq<Seg>, free: int, max: int, k: nat, n: nat)
    requires k <= n <= |c| && n <= |d| && c[..k] == d[..k]
    ensures Greedy(c, free, max, k) == Greedy(d, free, max, k)
    ensures
      var p, q := Greedy(c, free, max, k), Greedy(c, free, max, n);
      p.selected <= q.selected && p.left <= q.left
    decreases n
  {
    if n == 0 {
    } else if k < n {
      GreedyGoesForward(c, d, free, max, k, n - 1);
    } else {
      assert c[..k - 1] == c[..k][..k - 1] && d[..k - 1] == d[..k][..k - 1] && c[k - 1] == c[..k][k - 1];
      assert d[k - 1] == d[..k][k - 1];
      GreedyGoesForward(c, d, free, max, k - 1, n - 1);
    }
  }

  /** And from the back, about the last ones not on the earlier ones. */
  lemma {:induction false} ReverseGreedyGoesBackward(c: seq<Seg>, d: seq<Seg>, free: int, max: int, k: nat, n: nat)
    requires |c| == |d| && n <= k <= |c| && c[k..] == d[k..]
    ensures ReverseGreedy(c, free, max, k) == ReverseGreedy(d, free, max, k)
    ensures ReverseGreedy(c, free, max, k).selected <= ReverseGreedy(c, free, max, n).selected
    decreases |c| - n
  {
    if n == |c| {
    } else if n < k {
      ReverseGreedyGoesBackward(c, d, free, max, k, n + 1);
    } else {
      assert c[k + 1..] == c[k..][1..] && d[k + 1..] == d[k..][1..] && c[k] == c[k..][0] && d[k] == d[k..][0];
      ReverseGreedyGoesBackward(c, d, free, max, k + 1, n + 1);
    }
  }

  /** The first candidate that fits is the first one taken. */
  lemma {:induction false} GreedyTakesFirst(c: seq<Seg>, free: int, max: int, k: nat, n: nat)
    requires k < n <= |c| && max > 0 && c[k].size < free && forall i :: 0 <= i < k ==> c[i].size >= free
    ensures var p := Greedy(c, free, max, n); p.selected != [] && p.selected[0] == c[k]
    decreases n
  {
    if n == k + 1 {
      NoneFits(c, free, max, k);
    } else {
      GreedyTakesFirst(c, free, max, k, n - 1);
    }
  }

  lemma {:induction false} NoneFits(c: seq<Seg>, free: int, max: int, n: nat)
    requires n <= |c| && forall i :: 0 <= i < n ==> c[i].size >= free
    ensures Greedy(c, free, max, n).selected == [] && Greedy(c, free, max, n).free == free
  {
    if n == 0 {
    } else {
      NoneFits(c, free, max, n - 1);
    }
  }

  /** Of candidates sorted from large to small, the smallest ones are taken, the smallest first: as many of the
      last ones as fit. */
  lemma {:induction false} ReverseGreedyTakesSmallest(c: seq<Seg>, free: int, max: int, n: nat)
    requires n <= |c| && forall i, j :: 0 <= i < j < |c| ==> c[i].size >= c[j].size
    ensures
      var p := ReverseGreedy(c, free, max, n);
      && p.left == c[n..n + |p.left|]
      && forall i :: 0 <= i < |p.selected| ==> p.selected[i] == c[|c| - 1 - i]
    decreases |c| - n
  {
    if n == |c| {
    } else {
      ReverseGreedyTakesSmallest(c, free, max, n + 1);
      ReverseGreedySelects(c, free, max, n + 1);
      var p := ReverseGreedy(c, free, max, n + 1);
      if p.left != [] {
        assert p.left[0] == c[n + 1] && !p.Takes(c[n], max);
      }
    }
  }

  lemma {:induction false} InSelection(s: seq<Seg>, x: Seg, n: nat)
    requires n <= |s|
    ensures CountTo(s, n, x) > 0 <==> x in s[..n]
  {
    if n == 0 {
    } else {
      InSelection(s, x, n - 1);
      assert s[..n] == s[..n - 1] + [s[n - 1]];
    }
  }

  /** A segment occurs exactly if it is counted. */
  lemma CountedIsIn(s: seq<Seg>, x: Seg)
    ensures Count(s, x) > 0 <==> x in s
  {
    InSelection(s, x, |s|);
    assert s[..|s|] == s;
  }

  // ---------------------------------------------------------------- the loops

  method GreedySelect(c: seq<Seg>, free: int, max: int) returns (left: seq<Seg>, result: seq<Seg>, rest: int)
    ensures Pick(result, left, rest) == Greedy(c, free, max, |c|)
    ensures Selects(Pick(result, left, rest), free, max)
    ensures forall x :: Count(result, x) + Count(left, x) == Count(c, x)
  {
    var candidates := c;
    result, rest := [], free;
    var i := 0;
    ghost var k := 0;
    while i < |candidates|
      invariant 0 <= k <= |c| && i <= |candidates| && |candidates| - i == |c| - k
      invariant Pick(result, candidates[..i], rest) == Greedy(c, free, max, k)
      invariant candidates[i..] == c[k..]
      decreases |candidates| - i
    {
      var candidate := candidates[i];
      assert candidate == c[k];
      if |result| < max && candidate.size < rest {
        result, rest := result + [candidate], rest - candidate.size;
        ghost var before := candidates;
        candidates := candidates[..i] + candidates[i + 1..];
        assert candidates[..i] == before[..i] && candidates[i..] == before[i..][1..];
      } else {
        assert candidates[..i + 1] == candidates[..i] + [candidate] && candidates[i + 1..] == candidates[i..][1..];
        i := i + 1;
      }
      k := k + 1;
    }
    left := candidates;
    assert candidates[..i] == candidates && c[..|c|] == c;
    GreedySelects(c, free, max, |c|);
    forall x ensures Count(result, x) + Count(left, x) == Count(c, x) {
      GreedyCounts(c, free, max, |c|, x);
    }
  }

  method ReverseGreedySelect(c: seq<Seg>, free: int, max: int) returns (left: seq<Seg>, result: seq<Seg>, rest: int)
    ensures Pick(result, left, rest) == ReverseGreedy(c, free, max, 0)
    ensures Selects(Pick(result, left, rest), free, max)
    ensures forall x :: Count(result, x) + Count(left, x) == Count(c, x)
  {
    var candidates := c;
    result, rest := [], free;
    var i := |c|;
    while i > 0
      invariant 0 <= i <= |c| && i <= |candidates|
      invariant candidates[..i] == c[..i]
      invariant Pick(result, candidates[i..], rest) == ReverseGreedy(c, free, max, i)
    {
      i := i - 1;
      var candidate := candidates[i];
      assert candidate == c[..i + 1][i];
      assert candidates[..i] == candidates[..i + 1][..i] && c[..i] == c[..i + 1][..i];
      if |result| < max && candidate.size < rest {
        result, rest := result + [candidate], rest - candidate.size;
        ghost var before := candidates;
        candidates := candidates[..i] + candidates[i + 1..];
        assert candidates[..i] == before[..i] && candidates[i..] == before[i + 1..];
      } else {
        assert candidates[i..] == [candidate] + candidates[i + 1..];
      }
    }
    left := candidates;
    assert candidates[0..] == candidates && c[0..] == c;
    ReverseGreedySelects(c, free, max, 0);
    forall x ensures Count(result, x) + Count(left, x) == Count(c, x) {
      ReverseGreedyCounts(c, free, max, 0, x);
    }
  }
}
