/** How the segments of a channel are sorted into a read view. */
module ReadViewHandler {
  import opened ReadView
  import opened ReadViewAcyclic
  import opened ReadViewRetrieve
  import opened Wrappers

  datatype Level = Legacy | L0 | L1 | L2

  datatype SegmentState =
    | StateNone | StateGrowing | StateSealed | StateFlushing | StateFlushed | StateDropped | StateImporting

  /** A place in the message stream. */
  datatype Position = Position(msgID: int, ts: nat)

  datatype Segment = Segment(
    id: ID,
    start: Option<Position>,
    dml: Option<Position>,
    importing: bool,
    partition: int,
    level: Level,
    statsVersion: int,
    state: SegmentState,
    rows: int,
    from: seq<ID>)

  const ALL_PARTITIONS := 0
  const EMPTY_VERSION := 0

  /** The current partition statistics versions, the segments whose indexes are built, and the smallest number of
      rows worth an index. */
  datatype Context = Context(versions: map<int, int>, indexed: set<ID>, minRows: int) {
    function Current(partition: int): int {
      if partition in versions then versions[partition] else EMPTY_VERSION
    }
  }

  predicate IsFlushState(s: SegmentState) {
    s == StateFlushing || s == StateFlushed
  }

  // ---------------------------------------------------------------- where a segment belongs

  /** Not empty, not being imported, and not the product of an unfinished or outdated clustering compaction. */
  predicate Seen(s: Segment, ctx: Context) {
    (s.start.Some? || s.dml.Some?) && !s.importing && (s.level == L2 ==> s.statsVersion == ctx.Current(s.partition))
  }

  predicate IsFlushedData(s: Segment, ctx: Context) {
    Seen(s, ctx) && IsFlushState(s.state) && s.level != L0
  }

  /** Taken for indexed: indexed, too small for an index, or a dropped product of the current clustering compaction. */
  predicate AsIndexed(s: Segment, ctx: Context) {
    || (IsFlushedData(s, ctx) && (s.id in ctx.indexed || s.rows < ctx.minRows))
    || (Seen(s, ctx) && s.state == StateDropped && s.level == L2)
  }

  predicate AsUnIndexed(s: Segment, ctx: Context) {
    IsFlushedData(s, ctx) && s.id !in ctx.indexed && s.rows >= ctx.minRows
  }

  predicate AsDropped(s: Segment, ctx: Context) {
    Seen(s, ctx) && s.state == StateDropped && s.level != L2
  }

  predicate AsGrowing(s: Segment, ctx: Context) {
    Seen(s, ctx) && s.state != StateDropped && !IsFlushState(s.state)
  }

  predicate AsLevelZero(s: Segment, ctx: Context) {
    Seen(s, ctx) && IsFlushState(s.state) && s.level == L0
  }

  datatype Classes = Classes(
    infos: map<ID, seq<ID>>, indexed: set<ID>, unIndexed: set<ID>, dropped: set<ID>, growing: set<ID>,
    levelZero: set<ID>)
  {
    ghost predicate Places(s: Segment, ctx: Context) {
      && (s.id in infos <==> Seen(s, ctx)) && (s.id in infos ==> infos[s.id] == s.from)
      && (s.id in indexed <==> AsIndexed(s, ctx))
      && (s.id in unIndexed <==> AsUnIndexed(s, ctx))
      && (s.id in dropped <==> AsDropped(s, ctx))
      && (s.id in growing <==> AsGrowing(s, ctx))
      && (s.id in levelZero <==> AsLevelZero(s, ctx))
    }

    predicate Has(x: ID) {
      x in infos || x in indexed || x in unIndexed || x in dropped || x in growing || x in levelZero
    }
  }

  ghost predicate DistinctIDs(segments: seq<Segment>) {
    forall i, j :: 0 <= i < j < |segments| ==> segments[i].id != segments[j].id
  }

  ghost predicate HasID(segments: seq<Segment>, x: ID) {
    exists i :: 0 <= i < |segments| && segments[i].id == x
  }

  /** Sorts one segment into its set. */
  method ClassifyOne(s: Segment, ctx: Context, c: Classes) returns (d: Classes)
    requires !c.Has(s.id)
    ensures d.Places(s, ctx)
    ensures forall x :: x != s.id ==> (d.Has(x) <==> c.Has(x))
    ensures forall t: Segment :: t.id != s.id && c.Places(t, ctx) ==> d.Places(t, ctx)
  {
    d := c;
    if s.start.None? && s.dml.None? {
      return;
    }
    if s.importing {
      return;
    }
    var current := ctx.Current(s.partition);
    if s.level == L2 && s.statsVersion != current {
      return;
    }
    d := d.(infos := d.infos[s.id := s.from]);
    if s.state == StateDropped {
      if s.level == L2 && s.statsVersion == current {
        d := d.(indexed := d.indexed + {s.id});
      } else {
        d := d.(dropped := d.dropped + {s.id});
      }
    } else if !IsFlushState(s.state) {
      d := d.(growing := d.growing + {s.id});
    } else if s.level == L0 {
      d := d.(levelZero := d.levelZero + {s.id});
    } else if s.id in ctx.indexed {
      d := d.(indexed := d.indexed + {s.id});
    } else if s.rows < ctx.minRows {
      d := d.(indexed := d.indexed + {s.id});
    } else {
      d := d.(unIndexed := d.unIndexed + {s.id});
    }
  }

  /** Every segment is in the set it belongs to and in no other, and nothing else is in any. */
  method Classify(segments: seq<Segment>, ctx: Context) returns (c: Classes)
    requires DistinctIDs(segments)
    ensures forall i :: 0 <= i < |segments| ==> c.Places(segments[i], ctx)
    ensures forall x :: c.Has(x) ==> HasID(segments, x)
  {
    c := Classes(map[], {}, {}, {}, {}, {});
    for i := 0 to |segments|
      invariant forall k :: 0 <= k < i ==> c.Places(segments[k], ctx)
      invariant forall k :: i <= k < |segments| ==> !c.Has(segments[k].id)
      invariant forall x :: c.Has(x) ==> HasID(segments, x)
    {
      c := ClassifyOne(segments[i], ctx, c);
    }
  }

  /** Where a segment goes, by its state, level, version, index and size: nowhere if it is empty, being imported, or of
      another clustering version than the current one of its partition; else to exactly one set. */
  lemma PlacedExactly(c: Classes, s: Segment, ctx: Context)
    requires c.Places(s, ctx)
    ensures
      var current := if s.partition in ctx.versions then ctx.versions[s.partition] else 0;
      var seen := (s.start.Some? || s.dml.Some?) && !s.importing && (s.level == L2 ==> s.statsVersion == current);
      var flushed, indexed := s.state == StateFlushing || s.state == StateFlushed, s.id in ctx.indexed;
      && (s.id in c.infos <==> seen) && (seen ==> c.infos[s.id] == s.from)
      && (s.id in c.levelZero <==> seen && flushed && s.level == L0)
      && (s.id in c.unIndexed <==> seen && flushed && s.level != L0 && !indexed && s.rows >= ctx.minRows)
      && (s.id in c.dropped <==> seen && s.state == StateDropped && s.level != L2)
      && (s.id in c.growing <==> seen && !flushed && s.state != StateDropped)
      && (s.id in c.indexed <==>
            && seen && s.id !in c.levelZero && s.id !in c.unIndexed && s.id !in c.dropped && s.id !in c.growing)
  {
  }

  // ---------------------------------------------------------------- lineage

  /** What every segment was compacted from, seen or not. */
  ghost function LineageOf(segments: seq<Segment>, n: nat): map<ID, seq<ID>>
    requires n <= |segments|
  {
    if n == 0 then map[] else LineageOf(segments, n - 1)[segments[n - 1].id := segments[n - 1].from]
  }

  lemma {:induction false} LineageHolds(segments: seq<Segment>, n: nat, i: nat)
    requires DistinctIDs(segments) && i < n <= |segments|
    ensures segments[i].id in LineageOf(segments, n) && LineageOf(segments, n)[segments[i].id] == segments[i].from
  {
    if i == n - 1 {
    } else {
      LineageHolds(segments, n - 1, i);
    }
  }

  ghost predicate AcyclicSegments(segments: seq<Segment>) {
    Acyclic(Lineage(LineageOf(segments, |segments|), {}, {}))
  }

  lemma PartIsRanked(all: Lineage, g: Lineage, rank: map<ID, nat>)
    requires Ranked(all, rank) && forall x :: x in g.from ==> x in all.from && g.from[x] == all.from[x]
    ensures Ranked(g, rank)
  {
  }

  /** Where the loop over the lineage starts from. */
  function Start(c: Classes, ctx: Context): Lineage {
    Lineage(c.infos, ctx.indexed, c.unIndexed)
  }

  function FirstSets(c: Classes): Sets {
    Sets(c.unIndexed, c.indexed, c.dropped)
  }

  ghost predicate Sorted(segments: seq<Segment>, ctx: Context, c: Classes) {
    && (forall i :: 0 <= i < |segments| ==> c.Places(segments[i], ctx))
    && (forall x :: c.Has(x) ==> HasID(segments, x))
  }

  lemma StartIsRanked(segments: seq<Segment>, ctx: Context, c: Classes) returns (rank: map<ID, nat>)
    requires DistinctIDs(segments) && AcyclicSegments(segments) && Sorted(segments, ctx, c)
    ensures Ranked(Start(c, ctx), rank)
  {
    var all := Lineage(LineageOf(segments, |segments|), {}, {});
    rank := AcyclicIsRanked(all);
    forall x | x in c.infos ensures x in all.from && c.infos[x] == all.from[x] {
      assert c.Has(x);
      var i :| 0 <= i < |segments| && segments[i].id == x;
      assert c.Places(segments[i], ctx);
      LineageHolds(segments, |segments|, i);
    }
    PartIsRanked(all, Start(c, ctx), rank);
  }

  lemma StartsWell(segments: seq<Segment>, ctx: Context, c: Classes)
    requires Sorted(segments, ctx, c)
    ensures IsFirst(Start(c, ctx), FirstSets(c))
  {
    forall x | x in c.unIndexed ensures x in c.infos && x !in ctx.indexed && x !in c.indexed && x !in c.dropped {
      assert c.Has(x);
      var i :| 0 <= i < |segments| && segments[i].id == x;
      assert c.Places(segments[i], ctx);
    }
    forall x | x in c.dropped ensures x !in c.indexed {
      assert c.Has(x);
      var i :| 0 <= i < |segments| && segments[i].id == x;
      assert c.Places(segments[i], ctx);
    }
  }

  // ---------------------------------------------------------------- where readers start

  /** Some single partition is asked for. */
  predicate Named(partitions: seq<int>) {
    exists p :: p in partitions && p > ALL_PARTITIONS
  }

  /** A segment with data that is neither importing nor dropped, of one of the partitions if any is named. */
  predicate Counts(s: Segment, partitions: seq<int>) {
    && (Named(partitions) ==> s.partition in partitions && s.partition > ALL_PARTITIONS)
    && (s.start.Some? || s.dml.Some?) && !s.importing && s.state != StateDropped
  }

  function PositionOf(s: Segment): Position
    requires s.start.Some? || s.dml.Some?
  {
    if s.dml.Some? then s.dml.value else s.start.value
  }

  /** The position of segment `i` is the first of the earliest. */
  ghost predicate IsFirstEarliest(segments: seq<Segment>, n: nat, partitions: seq<int>, i: nat)
    requires n <= |segments|
  {
    && i < n && Counts(segments[i], partitions)
    && forall j :: 0 <= j < n && j != i && Counts(segments[j], partitions) ==>
         var p, q := PositionOf(segments[i]), PositionOf(segments[j]);
         p.ts <= q.ts && (j < i ==> p.ts < q.ts)
  }

  ghost predicate IsEarliest(segments: seq<Segment>, n: nat, partitions: seq<int>, pos: Option<Position>)
    requires n <= |segments|
  {
    match pos
    case None => forall i :: 0 <= i < n ==> !Counts(segments[i], partitions)
    case Some(p) => exists i: nat :: IsFirstEarliest(segments, n, partitions, i) && p == PositionOf(segments[i])
  }

  /** Readers miss nothing: the position is not after that of any segment with data, its last one or else its
      first, that is neither dropped nor being imported and, if partitions are named, is in one of them; and it is
      that of one. */
  lemma EarliestMissesNothing(segments: seq<Segment>, partitions: seq<int>, pos: Option<Position>, i: nat)
    requires IsEarliest(segments, |segments|, partitions, pos) && i < |segments|
    ensures
      var s, named := segments[i], exists p :: p in partitions && p > 0;
      s.state != StateDropped && !s.importing && (named ==> s.partition > 0 && s.partition in partitions) ==>
        && (s.dml.Some? ==> pos.Some? && pos.value.ts <= s.dml.value.ts)
        && (s.dml.None? && s.start.Some? ==> pos.Some? && pos.value.ts <= s.start.value.ts)
    ensures pos.Some? ==>
      exists j ::
        && 0 <= j < |segments| && segments[j].state != StateDropped && !segments[j].importing
        && ((exists p :: p in partitions && p > 0) ==>
              segments[j].partition > 0 && segments[j].partition in partitions)
        && pos == if segments[j].dml.Some? then segments[j].dml else segments[j].start
  {
    if pos.Some? {
      var j: nat :| IsFirstEarliest(segments, |segments|, partitions, j) && pos.value == PositionOf(segments[j]);
      assert Counts(segments[j], partitions);
      if Counts(segments[i], partitions) {
        assert i == j || PositionOf(segments[j]).ts <= PositionOf(segments[i]).ts;
      }
    }
  }

  lemma EarliestIsUnique(segments: seq<Segment>, n: nat, partitions: seq<int>, p: Option<Position>, q: Option<Position>)
    requires n <= |segments| && IsEarliest(segments, n, partitions, p) && IsEarliest(segments, n, partitions, q)
    ensures p == q
  {
    if p.Some? && q.Some? {
      var i: nat :| IsFirstEarliest(segments, n, partitions, i) && p.value == PositionOf(segments[i]);
      var j: nat :| IsFirstEarliest(segments, n, partitions, j) && q.value == PositionOf(segments[j]);
      assert i == j;
    }
  }

  method GetEarliestSegmentDMLPos(segments: seq<Segment>, partitions: seq<int>) returns (pos: Option<Position>)
    ensures IsEarliest(segments, |segments|, partitions, pos)
  {
    pos := None;
    for i := 0 to |segments|
      invariant IsEarliest(segments, i, partitions, pos)
    {
      var s := segments[i];
      if Counts(s, partitions) && (pos.None? || PositionOf(s).ts < pos.value.ts) {
        assert IsFirstEarliest(segments, i + 1, partitions, i);
        pos := Some(PositionOf(s));
      } else if pos.Some? {
        ghost var k: nat :| IsFirstEarliest(segments, i, partitions, k) && pos.value == PositionOf(segments[k]);
        assert IsFirstEarliest(segments, i + 1, partitions, k);
      }
    }
  }

  /** The checkpoint if there is one, else the earliest segment position, else the start of the collection. */
  ghost predicate IsSeek(
    checkpoint: Option<Position>, all: seq<Segment>, partitions: seq<int>, origin: Option<Position>,
    seek: Option<Position>)
  {
    if checkpoint.Some? then seek == checkpoint
    else if exists i :: 0 <= i < |all| && Counts(all[i], partitions) then IsEarliest(all, |all|, partitions, seek)
    else seek == origin
  }

  method GetChannelSeekPosition(
    checkpoint: Option<Position>, all: seq<Segment>, partitions: seq<int>, origin: Option<Position>)
    returns (seek: Option<Position>)
    ensures IsSeek(checkpoint, all, partitions, origin, seek)
  {
    if checkpoint.Some? {
      return checkpoint;
    }
    seek := GetEarliestSegmentDMLPos(all, partitions);
    if seek.Some? {
      return seek;
    }
    return origin;
  }

  // ---------------------------------------------------------------- the view

  datatype VchannelInfo = VchannelInfo(
    flushed: set<ID>, unflushed: set<ID>, dropped: set<ID>, levelZero: set<ID>, versions: map<int, int>,
    seek: Option<Position>)

  datatype ViewResult = NoCollection | View(info: VchannelInfo)

  method ValidPartitions(partitions: seq<int>) returns (valid: seq<int>)
    ensures forall i :: 0 <= i < |valid| ==> valid[i] in partitions && valid[i] > ALL_PARTITIONS
    ensures forall p :: p in partitions && p > ALL_PARTITIONS ==> p in valid
  {
    valid := [];
    for i := 0 to |partitions|
      invariant forall k :: 0 <= k < |valid| ==> valid[k] in partitions && valid[k] > ALL_PARTITIONS
      invariant forall k :: 0 <= k < i && partitions[k] > ALL_PARTITIONS ==> partitions[k] in valid
    {
      if partitions[i] > ALL_PARTITIONS {
        valid := valid + [partitions[i]];
      }
    }
  }

  method VersionsOf(partitions: seq<int>, ctx: Context) returns (versions: map<int, int>)
    ensures forall p :: p in versions <==> p in partitions
    ensures forall p :: p in versions ==> versions[p] == ctx.Current(p)
  {
    versions := map[];
    for i := 0 to |partitions|
      invariant forall p :: p in versions <==> p in partitions[..i]
      invariant forall p :: p in versions ==> versions[p] == ctx.Current(p)
    {
      versions := versions[partitions[i] := ctx.Current(partitions[i])];
    }
    assert partitions[..|partitions|] == partitions;
  }

  /** A segment that was compacted from nothing, or from a segment that is not known. */
  predicate CannotBeReplaced(infos: map<ID, seq<ID>>, x: ID) {
    x in infos && (infos[x] == [] || exists k :: 0 <= k < |infos[x]| && infos[x][k] !in infos)
  }

  /** The sorted segments, the lineage loop's result, and what the view owes its readers: growing and level-zero
      segments as sorted; flushed segments with complete coverage and without anything dropped; and, when no segment has
      two children, none of them together with an ancestor exactly when all of those give way. A segment without an
      index is there only if it cannot be replaced. */
  ghost predicate IsView(
    segments: seq<Segment>, ctx: Context, c: Classes, last: Sets, rank: map<ID, nat>, info: VchannelInfo)
  {
    && Sorted(segments, ctx, c)
    && Ranked(Start(c, ctx), rank)
    && IsResult(Start(c, ctx), FirstSets(c), last)
    && info.flushed == Flushed(last) && info.dropped == last.dropped
    && info.unflushed == c.growing && info.levelZero == c.levelZero
    && info.dropped !! info.flushed
    && (forall i :: 0 <= i < |segments| && (AsIndexed(segments[i], ctx) || AsUnIndexed(segments[i], ctx)) ==>
          Covered(Start(c, ctx), rank, info.flushed, segments[i].id))
    && (SingleChild(Start(c, ctx)) ==>
          (Antichain(Start(c, ctx), info.flushed) <==> AllGiveWay(Start(c, ctx), FirstSets(c))))
    && (forall x :: x in info.flushed && x !in c.indexed && x !in ctx.indexed ==> CannotBeReplaced(c.infos, x))
    && (forall x :: x in c.unIndexed && x in info.flushed ==> CannotBeReplaced(c.infos, x))
  }

  lemma ResultIsView(
    segments: seq<Segment>, ctx: Context, c: Classes, last: Sets, rank: map<ID, nat>, info: VchannelInfo)
    requires Sorted(segments, ctx, c) && Ranked(Start(c, ctx), rank) && IsResult(Start(c, ctx), FirstSets(c), last)
    requires info.flushed == Flushed(last) && info.dropped == last.dropped
    requires info.unflushed == c.growing && info.levelZero == c.levelZero
    ensures IsView(segments, ctx, c, last, rank, info)
  {
    var g, first := Start(c, ctx), FirstSets(c);
    StartsWell(segments, ctx, c);
    DroppedApart(g, first, last);
    forall i | 0 <= i < |segments| && (AsIndexed(segments[i], ctx) || AsUnIndexed(segments[i], ctx))
      ensures Covered(g, rank, info.flushed, segments[i].id)
    {
      assert c.Places(segments[i], ctx);
      FlushedCovered(g, rank, first, last, segments[i].id);
    }
    if SingleChild(g) {
      DoubleCountsExactlyWhen(g, rank, first, last);
    }
    forall x | x in info.flushed && x !in c.indexed && x !in ctx.indexed ensures CannotBeReplaced(c.infos, x) {
      NothingLeftToReplace(g, first, last, x);
    }
    forall x | x in c.unIndexed && x in info.flushed ensures CannotBeReplaced(c.infos, x) {
      NothingLeftToReplace(g, first, last, x);
    }
  }

  lemma SortedAgrees(segments: seq<Segment>, ctx: Context, c: Classes, d: Classes, x: ID)
    requires Sorted(segments, ctx, c) && Sorted(segments, ctx, d)
    ensures (x in c.infos <==> x in d.infos) && (x in c.infos ==> c.infos[x] == d.infos[x])
    ensures (x in c.indexed <==> x in d.indexed) && (x in c.unIndexed <==> x in d.unIndexed)
    ensures (x in c.dropped <==> x in d.dropped) && (x in c.growing <==> x in d.growing)
    ensures x in c.levelZero <==> x in d.levelZero
  {
    if c.Has(x) || d.Has(x) {
      var i :| 0 <= i < |segments| && segments[i].id == x;
      assert c.Places(segments[i], ctx) && d.Places(segments[i], ctx);
    }
  }

  lemma SortedIsUnique(segments: seq<Segment>, ctx: Context, c: Classes, d: Classes)
    requires Sorted(segments, ctx, c) && Sorted(segments, ctx, d)
    ensures c == d
  {
    forall x: ID
      ensures (x in c.infos <==> x in d.infos) && (x in c.infos ==> c.infos[x] == d.infos[x])
      ensures (x in c.indexed <==> x in d.indexed) && (x in c.unIndexed <==> x in d.unIndexed)
      ensures (x in c.dropped <==> x in d.dropped) && (x in c.growing <==> x in d.growing)
      ensures x in c.levelZero <==> x in d.levelZero
    {
      SortedAgrees(segments, ctx, c, d, x);
    }
    assert c.infos == d.infos && c.indexed == d.indexed && c.unIndexed == d.unIndexed;
    assert c.dropped == d.dropped && c.growing == d.growing && c.levelZero == d.levelZero;
  }

  /** Segments and context leave no choice: there is one view. */
  lemma ViewIsUnique(
    segments: seq<Segment>, ctx: Context, c: Classes, last: Sets, rank: map<ID, nat>, info: VchannelInfo,
    c': Classes, last': Sets, rank': map<ID, nat>, info': VchannelInfo)
    requires IsView(segments, ctx, c, last, rank, info) && IsView(segments, ctx, c', last', rank', info')
    ensures c == c' && last == last'
    ensures info.(versions := info'.versions, seek := info'.seek) == info'
  {
    SortedIsUnique(segments, ctx, c, c');
    ResultIsUnique(Start(c, ctx), FirstSets(c), last, last');
  }

  datatype Collection = Unknown | Partitions(ids: seq<int>)

  /** There is no view only if no partition is named and the collection cannot be found. `segments` are the real ones
      among `all` of the channel. */
  method GetQueryVChanPositions(
    partitions: seq<int>, collection: Collection, segments: seq<Segment>, ctx: Context,
    checkpoint: Option<Position>, all: seq<Segment>, origin: Option<Position>)
    returns (result: ViewResult, ghost c: Classes, ghost last: Sets, ghost rank: map<ID, nat>)
    requires DistinctIDs(segments) && AcyclicSegments(segments)
    ensures result.NoCollection? <==> collection.Unknown? && !Named(partitions)
    ensures result.View? ==>
      && IsView(segments, ctx, c, last, rank, result.info)
      && IsSeek(checkpoint, all, partitions, origin, result.info.seek)
      && (forall p :: p in result.info.versions ==> result.info.versions[p] == ctx.Current(p))
      && (forall p :: p in result.info.versions <==>
            if Named(partitions) then p in partitions && p > ALL_PARTITIONS
            else collection.Partitions? && p in collection.ids)
  {
    c, last, rank := Classes(map[], {}, {}, {}, {}, {}), Sets({}, {}, {}), map[];
    var valid := ValidPartitions(partitions);
    if |valid| == 0 {
      match collection {
        case Unknown => return NoCollection, c, last, rank;
        case Partitions(ids) => valid := ids;
      }
    } else {
      assert valid[0] in partitions && valid[0] > ALL_PARTITIONS;
      assert forall p :: p in valid <==> p in partitions && p > ALL_PARTITIONS;
    }
    var classes := Classify(segments, ctx);
    ghost var r := StartIsRanked(segments, ctx, classes);
    StartsWell(segments, ctx, classes);
    var sets := Retrieve(Start(classes, ctx), FirstSets(classes), r);
    var versions := VersionsOf(valid, ctx);
    var seek := GetChannelSeekPosition(checkpoint, all, partitions, origin);
    var flushed := sets.indexed + sets.unIndexed;
    var info := VchannelInfo(flushed, classes.growing, sets.dropped, classes.levelZero, versions, seek);
    ResultIsView(segments, ctx, classes, sets, r, info);
    return View(info), classes, sets, r;
  }

  // ---------------------------------------------------------------- segments that count twice

  // Segment 3 is flushed and has no index; it was compacted from 2, and 2 from 1, which is dropped.

  const HERE := Some(Position(0, 0))
  const NO_INDEXES := Context(map[], {}, 100)
  const OLDEST := Segment(1, HERE, HERE, false, 1, L1, 0, StateDropped, 200, [])
  const NEWEST := Segment(3, HERE, HERE, false, 1, L1, 0, StateFlushed, 200, [2])
  const SMALL := Segment(2, HERE, HERE, false, 1, L1, 0, StateFlushed, 50, [1])
  const CLUSTERED := Segment(2, HERE, HERE, false, 1, L2, EMPTY_VERSION, StateDropped, 200, [1])

  const THREE := Classes(SMALL_PARENT.from, {2}, {3}, {1}, {}, {})

  lemma ThreeSorted(parent: Segment)
    requires parent.id == 2 && parent.from == [1] && AsIndexed(parent, NO_INDEXES)
    ensures Sorted([OLDEST, parent, NEWEST], NO_INDEXES, THREE)
  {
    var segments := [OLDEST, parent, NEWEST];
    forall x | THREE.Has(x) ensures HasID(segments, x) {
      assert segments[0].id == 1 && segments[1].id == 2 && segments[2].id == 3;
    }
  }

  /** Whatever the reason for which 2 is taken for indexed, if it has no index it is in the view together with 1. */
  lemma TakenForIndexedCountsTwice(parent: Segment, c: Classes, last: Sets, rank: map<ID, nat>, info: VchannelInfo)
    requires parent.id == 2 && parent.from == [1] && AsIndexed(parent, NO_INDEXES)
    requires IsView([OLDEST, parent, NEWEST], NO_INDEXES, c, last, rank, info)
    ensures Start(c, NO_INDEXES) == SMALL_PARENT && FirstSets(c) == SMALL_FIRST
    ensures 1 in info.flushed && 2 in info.flushed && Ancestor(SMALL_PARENT, 1, 2)
  {
    ThreeSorted(parent);
    SortedIsUnique([OLDEST, parent, NEWEST], NO_INDEXES, c, THREE);
    SmallParentCountsTwice();
    ResultIsUnique(SMALL_PARENT, SMALL_FIRST, last, SMALL_LAST);
  }

  lemma ThreeAcyclic(parent: Segment)
    requires parent.id == 2 && parent.from == [1]
    ensures DistinctIDs([OLDEST, parent, NEWEST]) && AcyclicSegments([OLDEST, parent, NEWEST])
  {
    var segments := [OLDEST, parent, NEWEST];
    assert LineageOf(segments, 0) == map[];
    assert LineageOf(segments, 1) == map[1 := []];
    assert LineageOf(segments, 2) == map[1 := [], 2 := [1]];
    assert LineageOf(segments, 3) == map[1 := [], 2 := [1], 3 := [2]];
    SmallerParentsAcyclic(Lineage(LineageOf(segments, 3), {}, {}));
  }

  /** A small flushed segment and a dropped one of the current clustering compaction are such parents, and the handler
      accepts the segments. */
  lemma SegmentsCountTwice(parent: Segment)
    requires parent == SMALL || parent == CLUSTERED
    ensures AsIndexed(parent, NO_INDEXES)
    ensures DistinctIDs([OLDEST, parent, NEWEST]) && AcyclicSegments([OLDEST, parent, NEWEST])
  {
    ThreeAcyclic(parent);
  }
}
