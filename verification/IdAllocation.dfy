/** The batched ID allocator: a local cache over a remote range allocator.

    This module is the reference: it describes a loop turn with unbounded integers, as the events it logs,
    and states what holds of every log. `IdAllocatorLoop` holds the loop itself, in 32-bit arithmetic, and is
    proved to log exactly this. */
module IdAllocation {
  import opened Wrappers

  const TWO_32: int := 0x1_0000_0000
  type uint32 = x: int | 0 <= x < 0x1_0000_0000

  datatype IdRequest = IdRequest(token: int, count: uint32)

  datatype RemoteAnswer = RemoteError | Granted(start: int, count: uint32)

  /** What the loop tells a requester (the IDs `start .. start + count`, an error, or that a forced
      sync is over), and the ranges it receives. */
  datatype Event =
    | Served(token: int, start: int, count: uint32)
    | Refused(token: int, remoteError: bool)
    | Synced(token: int)
    | Grant(start: int, count: uint32)

  datatype Range = Range(lo: int, hi: int)

  // ---------------------------------------------------------------- one turn

  /** The IDs wanted by the first `n` requests. */
  function Wanted(reqs: seq<IdRequest>, n: nat): (w: nat)
    requires n <= |reqs|
  {
    if n == 0 then 0 else Wanted(reqs, n - 1) + reqs[n - 1].count
  }

  lemma {:induction false} WantedGrows(reqs: seq<IdRequest>, m: nat, n: nat)
    requires m <= n <= |reqs|
    ensures Wanted(reqs, m) <= Wanted(reqs, n)
    decreases n
  {
    if m == n {
    } else {
      WantedGrows(reqs, m, n - 1);
    }
  }

  /** The requests `from .. k` fit one after the other into `room` IDs, and `k` is as large as it can be. */
  function Fitting(reqs: seq<IdRequest>, from: nat, room: nat): (k: nat)
    requires from <= |reqs|
    ensures from <= k <= |reqs|
    ensures Wanted(reqs, k) - Wanted(reqs, from) <= room
    ensures k < |reqs| ==> Wanted(reqs, k + 1) - Wanted(reqs, from) > room
    decreases |reqs| - from
  {
    if from == |reqs| || reqs[from].count > room then from else Fitting(reqs, from + 1, room - reqs[from].count)
  }

  /** A request lies before the cut exactly when the requests up to and including it fit. */
  lemma FittingAt(reqs: seq<IdRequest>, from: nat, room: nat, i: nat)
    requires from <= i < |reqs|
    ensures i < Fitting(reqs, from, room) <==> Wanted(reqs, i + 1) - Wanted(reqs, from) <= room
  {
    var k := Fitting(reqs, from, room);
    if i < k {
      WantedGrows(reqs, i + 1, k);
    } else {
      WantedGrows(reqs, k + 1, i + 1);
    }
  }

  /** The count the remote is asked for: what is missing, or a whole batch when that is more. */
  function Asked(missing: int, perRPC: int): (count: int)
    ensures count >= missing && count >= perRPC && (count == missing || count == perRPC)
  {
    if missing < perRPC then perRPC else missing
  }

  /** Request `i` served as the last of the requests `m ..`, handed out one after the other from `start` on. */
  function ServeEvent(reqs: seq<IdRequest>, m: nat, start: int, i: nat): Event
    requires m <= i < |reqs|
  {
    Served(reqs[i].token, start + Wanted(reqs, i) - Wanted(reqs, m), reqs[i].count)
  }

  /** The events `p .. q` serve as many requests, from `m` on. */
  ghost predicate Serves(log: seq<Event>, p: nat, q: nat, reqs: seq<IdRequest>, m: nat, start: int) {
    && p <= q <= |log|
    && m + (q - p) <= |reqs|
    && forall x :: p <= x < q ==> log[x] == ServeEvent(reqs, m, start, m + (x - p))
  }

  /** The events `p .. q` refuse as many requests, from `m` on. */
  ghost predicate Refuses(log: seq<Event>, p: nat, q: nat, reqs: seq<IdRequest>, m: nat, remoteError: bool) {
    && p <= q <= |log|
    && m + (q - p) <= |reqs|
    && forall x :: p <= x < q ==> log[x] == Refused(reqs[m + (x - p)].token, remoteError)
  }

  /** From position `b` on, the log holds a refill and its answers to the requests from `k` on. */
  ghost predicate RefillLogged(log: seq<Event>, b: nat, reqs: seq<IdRequest>, k: nat, answer: RemoteAnswer)
    requires k <= |reqs|
  {
    match answer
    case RemoteError =>
      && |log| == b + (|reqs| - k)
      && Refuses(log, b, |log|, reqs, k, true)
    case Granted(s, n) =>
      var j := Fitting(reqs, k, n);
      && |log| == b + 1 + (|reqs| - k)
      && log[b] == Grant(s, n)
      && Serves(log, b + 1, b + 1 + (j - k), reqs, k, s)
      && Refuses(log, b + 1 + (j - k), |log|, reqs, j, false)
  }

  /** From position `b` on, the log holds a turn that received `reqs`: the cache serves as many leading requests as
      it can, and the rest, if any, waits for one refill. */
  ghost predicate TurnLogged(log: seq<Event>, b: nat, cache: Range, reqs: seq<IdRequest>, answer: RemoteAnswer)
    requires cache.lo <= cache.hi
  {
    var k := Fitting(reqs, 0, cache.hi - cache.lo);
    && Serves(log, b, b + k, reqs, 0, cache.lo)
    && if k == |reqs| then |log| == b + k else RefillLogged(log, b + k, reqs, k, answer)
  }

  /** From position `b` on, the log holds a sync on behalf of nobody (a timer tick) or of the waiting `tokens`. */
  ghost predicate SyncLogged(log: seq<Event>, b: nat, answer: RemoteAnswer, tokens: seq<int>) {
    var grants := if answer.Granted? then 1 else 0;
    && |log| == b + grants + |tokens|
    && (answer.Granted? ==> log[b] == Grant(answer.start, answer.count))
    && forall x :: b + grants <= x < |log| ==> log[x] == Synced(tokens[x - b - grants])
  }

  // ---------------------------------------------------------------- every request answered once

  /** The event that answers `req`, and nothing else. */
  predicate Answers(e: Event, req: IdRequest, refused: bool) {
    if refused then e.Refused? && e.token == req.token
    else e.Served? && e.token == req.token && e.count == req.count
  }

  /** Request `i` is answered, one way or the other: `o + i` events into the log, or `grants` later from `k` on. */
  ghost predicate AnsweredAt(log: seq<Event>, o: int, k: nat, grants: nat, reqs: seq<IdRequest>, i: nat) {
    var x := o + (if i < k then i else i + grants);
    0 <= x < |log| && i < |reqs| && (Answers(log[x], reqs[i], false) || Answers(log[x], reqs[i], true))
  }

  /** From there on the log holds nothing but one answer to each request, in arrival order, and the grants before
      that to `k`; this for the requests from `from` on. */
  ghost predicate EachAnswered(log: seq<Event>, o: int, k: nat, grants: nat, reqs: seq<IdRequest>, from: nat) {
    && from <= k <= |reqs| && 0 <= o + from && |log| == o + |reqs| + grants
    && (forall x :: o + k <= x < o + k + grants ==> log[x].Grant?)
    && (forall i :: from <= i < |reqs| ==> AnsweredAt(log, o, k, grants, reqs, i))
  }

  /** A request left to the refill at `k` is refused when the remote failed, or granted less than the requests
      from `k` up to and including it want. */
  predicate RefusedByRefill(reqs: seq<IdRequest>, k: nat, answer: RemoteAnswer, i: nat)
    requires k <= i < |reqs|
  {
    answer.RemoteError? || Wanted(reqs, i + 1) - Wanted(reqs, k) > answer.count
  }

  lemma RefillAnswers(log: seq<Event>, b: nat, reqs: seq<IdRequest>, k: nat, answer: RemoteAnswer, i: nat)
    requires k <= i < |reqs| && RefillLogged(log, b, reqs, k, answer)
    ensures |log| == b + (if answer.Granted? then 1 else 0) + (|reqs| - k)
    ensures
      var e, refused := log[b + (if answer.Granted? then 1 else 0) + (i - k)], RefusedByRefill(reqs, k, answer, i);
      Answers(e, reqs[i], refused) && (refused ==> e.remoteError == answer.RemoteError?)
  {
    if answer.Granted? {
      FittingAt(reqs, k, answer.count, i);
    }
  }

  /** Whether a turn refuses request `i`: it lies beyond what the cache can serve, and the refill does not make
      up for it. */
  predicate RefusedInTurn(cache: Range, reqs: seq<IdRequest>, answer: RemoteAnswer, i: nat)
    requires cache.lo <= cache.hi && i < |reqs|
  {
    var k := Fitting(reqs, 0, cache.hi - cache.lo);
    k <= i && RefusedByRefill(reqs, k, answer, i)
  }

  /** How many grants a turn logs. */
  function GrantsInTurn(cache: Range, reqs: seq<IdRequest>, answer: RemoteAnswer): nat
    requires cache.lo <= cache.hi
  {
    if Fitting(reqs, 0, cache.hi - cache.lo) < |reqs| && answer.Granted? then 1 else 0
  }

  /** A turn logs exactly one answer for every request it received, in arrival order, besides the grant of its
      sync: the IDs wanted, or an error exactly when `RefusedInTurn`, the remote's own if it failed. */
  lemma AnsweredOnceInOrder(log: seq<Event>, b: nat, cache: Range, reqs: seq<IdRequest>, answer: RemoteAnswer, i: nat)
    requires cache.lo <= cache.hi && i < |reqs| && TurnLogged(log, b, cache, reqs, answer)
    ensures |log| == b + |reqs| + GrantsInTurn(cache, reqs, answer)
    ensures
      var slot := if i < Fitting(reqs, 0, cache.hi - cache.lo) then i else i + GrantsInTurn(cache, reqs, answer);
      && Answers(log[b + slot], reqs[i], RefusedInTurn(cache, reqs, answer, i))
      && (RefusedInTurn(cache, reqs, answer, i) ==> log[b + slot].remoteError == answer.RemoteError?)
  {
    var k := Fitting(reqs, 0, cache.hi - cache.lo);
    if k < |reqs| {
      RefillAnswers(log, b + k, reqs, k, answer, if i < k then k else i);
    }
  }

  /** No request is refused in a turn whose sync, if one was needed, granted at least the count asked for. */
  lemma NoneRefusedWhenGrantSuffices(cache: Range, reqs: seq<IdRequest>, answer: RemoteAnswer, perRPC: nat, i: nat)
    requires cache.lo <= cache.hi && i < |reqs|
    requires
      var k := Fitting(reqs, 0, cache.hi - cache.lo);
      k < |reqs| ==> answer.Granted? && answer.count >= Asked(Wanted(reqs, |reqs|) - Wanted(reqs, k), perRPC)
    ensures !RefusedInTurn(cache, reqs, answer, i)
  {
    WantedGrows(reqs, i + 1, |reqs|);
  }

  // ---------------------------------------------------------------- whole runs

  /** What is left of the last grant once the events have happened; nothing if some range handed out does
      not start the cache of its moment, or runs past it. */
  function PlayFirst(cache: Range, log: seq<Event>, n: nat): Option<Range>
    requires n <= |log|
  {
    if n == 0 then Some(cache)
    else
      var before := PlayFirst(cache, log, n - 1);
      if before.None? then None else PlayOne(before.value, log[n - 1])
  }

  function Play(cache: Range, log: seq<Event>): Option<Range> {
    PlayFirst(cache, log, |log|)
  }

  function PlayOne(cache: Range, e: Event): Option<Range> {
    match e
    case Served(_, s, n) => if s == cache.lo && s + n <= cache.hi then Some(Range(s + n, cache.hi)) else None
    case Grant(s, n) => Some(Range(s, s + n))
    case _ => Some(cache)
  }

  /** The IDs an event hands out or brings in. */
  function Ids(e: Event): Range {
    if e.Served? || e.Grant? then Range(e.start, e.start + e.count) else Range(0, 0)
  }

  predicate NonEmpty(r: Range) { r.lo < r.hi }

  predicate Apart(a: Range, b: Range) {
    NonEmpty(a) && NonEmpty(b) ==> a.hi <= b.lo || b.hi <= a.lo
  }

  predicate Below(a: Range, b: Range) {
    NonEmpty(a) && NonEmpty(b) ==> a.hi <= b.lo
  }

  /** Two ranges are compatible when they are apart and, if `ordered`, the first lies below the second. */
  predicate Compatible(ordered: bool, a: Range, b: Range) {
    if ordered then Below(a, b) else Apart(a, b)
  }

  ghost predicate GrantsCompatible(ordered: bool, log: seq<Event>) {
    forall i, j :: 0 <= i < j < |log| && log[i].Grant? && log[j].Grant? ==>
      Compatible(ordered, Ids(log[i]), Ids(log[j]))
  }

  ghost predicate ServedCompatible(ordered: bool, log: seq<Event>) {
    forall i, j :: 0 <= i < j < |log| && log[i].Served? && log[j].Served? ==>
      Compatible(ordered, Ids(log[i]), Ids(log[j]))
  }

  ghost predicate Holds(log: seq<Event>, g: nat, ids: Range) {
    g < |log| && log[g].Grant? && Ids(log[g]).lo <= ids.lo && ids.hi <= Ids(log[g]).hi
  }

  ghost predicate FromOneGrant(log: seq<Event>, ids: Range) {
    NonEmpty(ids) ==> exists g: nat :: Holds(log, g, ids)
  }

  /** What every event keeps, besides the claims themselves: the cache is a tail of a grant and untouched. */
  ghost predicate Sound(ordered: bool, log: seq<Event>, cache: Range) {
    && cache.lo <= cache.hi
    && FromOneGrant(log, cache)
    && (forall i :: 0 <= i < |log| && log[i].Served? ==> FromOneGrant(log, Ids(log[i])))
    && (GrantsCompatible(ordered, log) ==>
          && ServedCompatible(ordered, log)
          && forall i :: 0 <= i < |log| && log[i].Served? ==> Compatible(ordered, Ids(log[i]), cache))
  }

  lemma StillHeld(log: seq<Event>, log': seq<Event>, ids: Range)
    requires FromOneGrant(log, ids) && log <= log'
    ensures FromOneGrant(log', ids)
  {
    if NonEmpty(ids) {
      var g: nat :| Holds(log, g, ids);
      assert Holds(log', g, ids);
    }
  }

  /** Whatever a range was served from, it is compatible with a grant made later. */
  lemma CompatibleWithLaterGrant(ordered: bool, log: seq<Event>, g: Event, ids: Range)
    requires g.Grant? && FromOneGrant(log, ids) && GrantsCompatible(ordered, log + [g])
    ensures Compatible(ordered, ids, Ids(g))
  {
    if NonEmpty(ids) {
      var b: nat :| Holds(log, b, ids);
      assert (log + [g])[b] == log[b] && (log + [g])[|log|] == g;
    }
  }

  lemma GrantKeepsSound(ordered: bool, log: seq<Event>, cache: Range, g: Event)
    requires Sound(ordered, log, cache) && g.Grant?
    ensures Sound(ordered, log + [g], Ids(g))
  {
    var log' := log + [g];
    assert Holds(log', |log|, Ids(g));
    forall i | 0 <= i < |log'| && log'[i].Served?
      ensures FromOneGrant(log', Ids(log'[i]))
      ensures GrantsCompatible(ordered, log') ==> Compatible(ordered, Ids(log'[i]), Ids(g))
    {
      StillHeld(log, log', Ids(log[i]));
      if GrantsCompatible(ordered, log') {
        CompatibleWithLaterGrant(ordered, log, g, Ids(log[i]));
      }
    }
    if GrantsCompatible(ordered, log') {
      GrantsOfPrefix(ordered, log, g);
    }
  }

  lemma GrantsOfPrefix(ordered: bool, log: seq<Event>, e: Event)
    requires GrantsCompatible(ordered, log + [e])
    ensures GrantsCompatible(ordered, log)
  {
    forall i, j | 0 <= i < j < |log| && log[i].Grant? && log[j].Grant?
      ensures Compatible(ordered, Ids(log[i]), Ids(log[j]))
    {
      assert (log + [e])[i] == log[i] && (log + [e])[j] == log[j];
    }
  }

  lemma ReplyKeepsSound(ordered: bool, log: seq<Event>, cache: Range, e: Event)
    requires Sound(ordered, log, cache) && !e.Grant? && PlayOne(cache, e).Some?
    ensures Sound(ordered, log + [e], PlayOne(cache, e).value)
  {
    var log', cache' := log + [e], PlayOne(cache, e).value;
    StillHeld(log, log', cache);
    assert FromOneGrant(log', cache') && (e.Served? ==> FromOneGrant(log', Ids(e))) by {
      if NonEmpty(cache) {
        var g: nat :| Holds(log', g, cache);
        assert Holds(log', g, cache') && (e.Served? ==> Holds(log', g, Ids(e)));
      }
    }
    forall i | 0 <= i < |log| && log[i].Served? ensures FromOneGrant(log', Ids(log[i])) {
      StillHeld(log, log', Ids(log[i]));
    }
    if GrantsCompatible(ordered, log') {
      GrantsOfPrefix(ordered, log, e);
    }
  }

  /** In every log an allocator that starts empty can write: every ID handed out comes from one grant; if the remote
      never grants an ID twice then no ID is handed out twice; and if the grants increase, so do the ranges handed
      out. Refills that discard a leftover, failed syncs and forced syncs are all covered. */
  lemma HandedOutOnce(ordered: bool, log: seq<Event>)
    requires Play(Range(0, 0), log).Some?
    ensures Sound(ordered, log, Play(Range(0, 0), log).value)
  {
    SoundUpTo(ordered, log, |log|);
    assert log[..|log|] == log;
  }

  lemma {:induction false} SoundUpTo(ordered: bool, log: seq<Event>, n: nat)
    requires n <= |log| && PlayFirst(Range(0, 0), log, n).Some?
    ensures Sound(ordered, log[..n], PlayFirst(Range(0, 0), log, n).value)
  {
    if n == 0 {
    } else {
      SoundUpTo(ordered, log, n - 1);
      var e, cache := log[n - 1], PlayFirst(Range(0, 0), log, n - 1).value;
      assert log[..n] == log[..n - 1] + [e];
      if e.Grant? {
        GrantKeepsSound(ordered, log[..n - 1], cache, e);
      } else {
        ReplyKeepsSound(ordered, log[..n - 1], cache, e);
      }
    }
  }

  // ---------------------------------------------------------------- turns write such logs

  lemma {:induction false} PlayPrefix(cache: Range, log: seq<Event>, log': seq<Event>, n: nat)
    requires n <= |log| && log <= log'
    ensures PlayFirst(cache, log', n) == PlayFirst(cache, log, n)
  {
    if n == 0 {
    } else {
      PlayPrefix(cache, log, log', n - 1);
    }
  }

  lemma {:induction false} PlayServes(
    start: Range, log: seq<Event>, p: nat, q: nat, reqs: seq<IdRequest>, m: nat, cache: Range)
    requires p <= |log| && PlayFirst(start, log, p) == Some(cache)
    requires Serves(log, p, q, reqs, m, cache.lo) && Wanted(reqs, m + (q - p)) - Wanted(reqs, m) <= cache.hi - cache.lo
    ensures PlayFirst(start, log, q) == Some(Range(cache.lo + Wanted(reqs, m + (q - p)) - Wanted(reqs, m), cache.hi))
    decreases q
  {
    if p == q {
    } else {
      PlayServes(start, log, p, q - 1, reqs, m, cache);
      assert log[q - 1] == ServeEvent(reqs, m, cache.lo, m + (q - 1 - p));
    }
  }

  /** Events that neither hand out nor bring in IDs leave the cache alone. */
  lemma {:induction false} PlayIdle(start: Range, log: seq<Event>, p: nat, q: nat)
    requires p <= q <= |log| && forall x :: p <= x < q ==> log[x].Refused? || log[x].Synced?
    ensures PlayFirst(start, log, q) == PlayFirst(start, log, p)
    decreases q
  {
    if p == q {
    } else {
      PlayIdle(start, log, p, q - 1);
    }
  }

  /** The cache a refill leaves behind; a grant replaces it, and what was left is discarded. */
  function Refilled(cache: Range, reqs: seq<IdRequest>, k: nat, answer: RemoteAnswer): Range
    requires k <= |reqs|
  {
    match answer
    case RemoteError => cache
    case Granted(s, n) => Range(s + Wanted(reqs, Fitting(reqs, k, n)) - Wanted(reqs, k), s + n)
  }

  lemma PlayRefill(
    start: Range, log: seq<Event>, b: nat, reqs: seq<IdRequest>, k: nat, answer: RemoteAnswer, cache: Range)
    requires k <= |reqs| && RefillLogged(log, b, reqs, k, answer)
    requires b <= |log| && PlayFirst(start, log, b) == Some(cache)
    ensures Play(start, log) == Some(Refilled(cache, reqs, k, answer))
  {
    match answer {
      case RemoteError =>
        PlayIdle(start, log, b, |log|);
      case Granted(s, n) =>
        var q := b + 1 + (Fitting(reqs, k, n) - k);
        assert PlayFirst(start, log, b + 1) == PlayOne(cache, log[b]);
        PlayServes(start, log, b + 1, q, reqs, k, Range(s, s + n));
        PlayIdle(start, log, q, |log|);
    }
  }

  /** The cache a turn that receives requests leaves behind. */
  function TurnCache(cache: Range, reqs: seq<IdRequest>, answer: RemoteAnswer): Range
    requires cache.lo <= cache.hi
  {
    var k := Fitting(reqs, 0, cache.hi - cache.lo);
    var left := Range(cache.lo + Wanted(reqs, k), cache.hi);
    if k == |reqs| then left else Refilled(left, reqs, k, answer)
  }

  /** A turn that receives requests extends a log that plays, and leaves the cache it should. */
  lemma PlayTurn(start: Range, log: seq<Event>, b: nat, cache: Range, reqs: seq<IdRequest>, answer: RemoteAnswer)
    requires cache.lo <= cache.hi && TurnLogged(log, b, cache, reqs, answer)
    requires b <= |log| && PlayFirst(start, log, b) == Some(cache)
    ensures Play(start, log) == Some(TurnCache(cache, reqs, answer))
  {
    var k := Fitting(reqs, 0, cache.hi - cache.lo);
    var left := Range(cache.lo + Wanted(reqs, k), cache.hi);
    assert PlayFirst(start, log, b + k) == Some(left) by {
      PlayServes(start, log, b, b + k, reqs, 0, cache);
    }
    if k < |reqs| {
      PlayRefill(start, log, b + k, reqs, k, answer, left);
    }
  }

  function SyncCache(cache: Range, answer: RemoteAnswer): Range {
    match answer
    case RemoteError => cache
    case Granted(s, n) => Range(s, s + n)
  }

  lemma PlaySync(start: Range, log: seq<Event>, b: nat, cache: Range, answer: RemoteAnswer, tokens: seq<int>)
    requires SyncLogged(log, b, answer, tokens)
    requires b <= |log| && PlayFirst(start, log, b) == Some(cache)
    ensures Play(start, log) == Some(SyncCache(cache, answer))
  {
    PlayIdle(start, log, if answer.Granted? then b + 1 else b, |log|);
  }
}
