/** The allocator's loop, with the 32-bit counters it computes in. */
module IdAllocatorLoop {
  import opened IdAllocation
  import opened Wrappers

  const ID_COUNT_PER_RPC: uint32 := 200000

  function Wrap(x: int): uint32 {
    x % TWO_32
  }

  /** `part` is the stretch of `reqs` that starts at `m`. */
  ghost predicate Stretch(part: seq<IdRequest>, reqs: seq<IdRequest>, m: nat) {
    m + |part| <= |reqs| && forall i :: 0 <= i < |part| ==> part[i] == reqs[m + i]
  }

  lemma {:induction false} WantedStretch(part: seq<IdRequest>, reqs: seq<IdRequest>, m: nat, i: nat)
    requires Stretch(part, reqs, m) && i <= |part|
    ensures Wanted(part, i) == Wanted(reqs, m + i) - Wanted(reqs, m)
    decreases i
  {
    if i == 0 {
    } else {
      WantedStretch(part, reqs, m, i - 1);
    }
  }

  /** `Fitting` is the only cut that fits and cannot be moved. */
  lemma FittingIsUnique(reqs: seq<IdRequest>, from: nat, room: nat, k: nat)
    requires from <= k <= |reqs|
    requires Wanted(reqs, k) - Wanted(reqs, from) <= room
    requires k < |reqs| ==> Wanted(reqs, k + 1) - Wanted(reqs, from) > room
    ensures k == Fitting(reqs, from, room)
  {
    var f := Fitting(reqs, from, room);
    if k < f {
      WantedGrows(reqs, k + 1, f);
    } else if f < k {
      WantedGrows(reqs, f + 1, k);
    }
  }

  /** The running total of the first `j` counts, as the picker sees it. */
  function Running(reqs: seq<IdRequest>, j: nat): uint32
    requires j <= |reqs|
  {
    Wrap(Wanted(reqs, j))
  }

  lemma RunningNext(reqs: seq<IdRequest>, j: nat)
    requires j < |reqs|
    ensures Running(reqs, j + 1) == Wrap(Running(reqs, j) + reqs[j].count)
  {
  }

  /** The cut the picker makes: every wrapped running total up to it is within `total`, the next one is not. */
  ghost predicate PickedUpTo(reqs: seq<IdRequest>, k: nat, total: uint32) {
    && k <= |reqs|
    && (forall j :: 0 <= j <= k ==> Running(reqs, j) <= total)
    && (k < |reqs| ==> Running(reqs, k + 1) > total)
  }

  /** The picker sees that the first request that does not fit does not fit: the total does not wrap into the room. */
  predicate MisfitSeen(reqs: seq<IdRequest>, from: nat, room: uint32)
    requires from <= |reqs|
  {
    var f := Fitting(reqs, from, room);
    f == |reqs| || Wrap(Wanted(reqs, f + 1) - Wanted(reqs, from)) > room
  }

  /** What the picker takes stays within the cache, and is then the right cut, exactly when it sees the misfit;
      otherwise it takes too much. */
  lemma PickStaysInCacheExactlyWhen(reqs: seq<IdRequest>, k: nat, total: uint32)
    requires PickedUpTo(reqs, k, total)
    ensures Wanted(reqs, k) <= total <==> MisfitSeen(reqs, 0, total)
    ensures k == Fitting(reqs, 0, total) <==> MisfitSeen(reqs, 0, total)
  {
    var f := Fitting(reqs, 0, total);
    if k < f {
      WantedGrows(reqs, k + 1, f);
      assert false;
    } else if f < k {
      WantedGrows(reqs, f + 1, k);
      assert Running(reqs, f + 1) <= total;
    }
  }

  lemma FittingStretch(part: seq<IdRequest>, reqs: seq<IdRequest>, m: nat, room: nat)
    requires Stretch(part, reqs, m) && m + |part| == |reqs|
    ensures Fitting(reqs, m, room) == m + Fitting(part, 0, room)
  {
    var f := Fitting(part, 0, room);
    WantedStretch(part, reqs, m, f);
    if f < |part| {
      WantedStretch(part, reqs, m, f + 1);
    }
    FittingIsUnique(reqs, m, room, m + f);
  }

  lemma SeenStretch(part: seq<IdRequest>, reqs: seq<IdRequest>, m: nat, room: uint32)
    requires Stretch(part, reqs, m) && m + |part| == |reqs|
    ensures MisfitSeen(reqs, m, room) <==> MisfitSeen(part, 0, room)
  {
    FittingStretch(part, reqs, m, room);
    var f := Fitting(part, 0, room);
    if f < |part| {
      WantedStretch(part, reqs, m, f + 1);
    }
  }

  /** The same for the requests from `m` on, once those before have been dealt with. */
  lemma PickedFrom(part: seq<IdRequest>, reqs: seq<IdRequest>, m: nat, k: nat, total: uint32)
    requires Stretch(part, reqs, m) && m + |part| == |reqs| && PickedUpTo(part, k, total)
    ensures m + k == Fitting(reqs, m, total) <==> MisfitSeen(reqs, m, total)
    ensures Wanted(reqs, m + k) - Wanted(reqs, m) <= total <==> MisfitSeen(reqs, m, total)
  {
    PickStaysInCacheExactlyWhen(part, k, total);
    FittingStretch(part, reqs, m, total);
    SeenStretch(part, reqs, m, total);
    WantedStretch(part, reqs, m, k);
  }

  /** Requests that sum below 2^32 never wrap. */
  lemma SmallSumsAreSeen(reqs: seq<IdRequest>, from: nat, room: uint32)
    requires from <= |reqs| && Wanted(reqs, |reqs|) - Wanted(reqs, from) < TWO_32
    ensures MisfitSeen(reqs, from, room)
  {
    var f := Fitting(reqs, from, room);
    if f < |reqs| {
      WantedGrows(reqs, f + 1, |reqs|);
    }
  }

  lemma ServesStretch(log: seq<Event>, p: nat, q: nat, part: seq<IdRequest>, reqs: seq<IdRequest>, m: nat, start: int)
    requires Stretch(part, reqs, m) && Serves(log, p, q, part, 0, start)
    ensures Serves(log, p, q, reqs, m, start)
  {
    forall x | p <= x < q ensures log[x] == ServeEvent(reqs, m, start, m + (x - p)) {
      WantedStretch(part, reqs, m, x - p);
      assert log[x] == ServeEvent(part, 0, start, 0 + (x - p));
    }
  }

  lemma RefusesStretch(
    log: seq<Event>, p: nat, q: nat, part: seq<IdRequest>, reqs: seq<IdRequest>, m: nat, remoteError: bool)
    requires Stretch(part, reqs, m) && Refuses(log, p, q, part, 0, remoteError)
    ensures Refuses(log, p, q, reqs, m, remoteError)
  {
  }

  lemma ServesKept(log: seq<Event>, log': seq<Event>, p: nat, q: nat, reqs: seq<IdRequest>, m: nat, start: int)
    requires Serves(log, p, q, reqs, m, start) && log <= log'
    ensures Serves(log', p, q, reqs, m, start)
  {
  }

  lemma TurnCacheBounds(cache: Range, reqs: seq<IdRequest>, answer: RemoteAnswer)
    requires cache.lo <= cache.hi < cache.lo + TWO_32
    ensures var after := TurnCache(cache, reqs, answer); after.lo <= after.hi < after.lo + TWO_32
  {
    if answer.Granted? {
      var k := Fitting(reqs, 0, cache.hi - cache.lo);
      WantedGrows(reqs, k, Fitting(reqs, k, answer.count));
    }
  }

  /** A round that serves the first `k` requests, and then the refill, log the turn. */
  lemma TurnIsLogged(
    before: seq<Event>, mid: seq<Event>, after: seq<Event>, cache: Range, reqs: seq<IdRequest>, k: nat,
    answer: RemoteAnswer)
    requires cache.lo <= cache.hi && k == Fitting(reqs, 0, cache.hi - cache.lo)
    requires before <= mid <= after && |mid| == |before| + k && Serves(mid, |before|, |mid|, reqs, 0, cache.lo)
    requires if k == |reqs| then after == mid else RefillLogged(after, |mid|, reqs, k, answer)
    requires Play(Range(0, 0), before) == Some(cache)
    ensures TurnLogged(after, |before|, cache, reqs, answer)
    ensures Play(Range(0, 0), after) == Some(TurnCache(cache, reqs, answer))
  {
    ServesKept(mid, after, |before|, |mid|, reqs, 0, cache.lo);
    PlayPrefix(Range(0, 0), before, after, |before|);
    PlayTurn(Range(0, 0), after, |before|, cache, reqs, answer);
  }

  /** Beyond 2^32 the picker need not: ten cached IDs, and a second request that makes the running total wrap to
      zero. */
  lemma PickCanOverrun()
    ensures exists reqs, k, total ::
      PickedUpTo(reqs, k, total) && Wanted(reqs, k) > total && !MisfitSeen(reqs, 0, total)
  {
    var reqs := [IdRequest(1, 5), IdRequest(2, 0xFFFF_FFFB)];
    assert Wanted(reqs, 0) == 0 && Wanted(reqs, 1) == 5 && Wanted(reqs, 2) == TWO_32;
    assert PickedUpTo(reqs, 2, 10);
    PickStaysInCacheExactlyWhen(reqs, 2, 10);
  }

  /** Both picks of a turn see the misfit, if they are made. */
  predicate TurnSeen(cache: Range, reqs: seq<IdRequest>, answer: RemoteAnswer)
    requires cache.lo <= cache.hi < cache.lo + TWO_32
  {
    var k := Fitting(reqs, 0, cache.hi - cache.lo);
    && MisfitSeen(reqs, 0, cache.hi - cache.lo)
    && (k < |reqs| && answer.Granted? ==> MisfitSeen(reqs, k, answer.count))
  }

  /** In particular, both do if the requests sum below 2^32. */
  lemma SmallTurnsAreSeen(cache: Range, reqs: seq<IdRequest>, answer: RemoteAnswer)
    requires cache.lo <= cache.hi < cache.lo + TWO_32 && Wanted(reqs, |reqs|) < TWO_32
    ensures TurnSeen(cache, reqs, answer)
  {
    var k := Fitting(reqs, 0, cache.hi - cache.lo);
    SmallSumsAreSeen(reqs, 0, cache.hi - cache.lo);
    WantedGrows(reqs, k, |reqs|);
    if answer.Granted? {
      SmallSumsAreSeen(reqs, k, answer.count);
    }
  }

  /** The events `p .. q` serve the requests from `m` on past the end of the cache of their moment. */
  ghost predicate Overruns(log: seq<Event>, p: nat, q: nat, reqs: seq<IdRequest>, m: nat, cache: Range) {
    && Serves(log, p, q, reqs, m, cache.lo)
    && Wanted(reqs, m + (q - p)) - Wanted(reqs, m) > cache.hi - cache.lo
  }

  lemma {:induction false} OverrunStops(
    start: Range, log: seq<Event>, p: nat, q: nat, reqs: seq<IdRequest>, m: nat, cache: Range)
    requires p <= |log| && PlayFirst(start, log, p) == Some(cache) && cache.lo <= cache.hi
    requires Overruns(log, p, q, reqs, m, cache)
    ensures PlayFirst(start, log, q).None?
    decreases q
  {
    if Wanted(reqs, m + (q - 1 - p)) - Wanted(reqs, m) > cache.hi - cache.lo {
      OverrunStops(start, log, p, q - 1, reqs, m, cache);
    } else {
      PlayServes(start, log, p, q - 1, reqs, m, cache);
      assert log[q - 1] == ServeEvent(reqs, m, cache.lo, m + (q - 1 - p));
    }
  }

  lemma {:induction false} StoppedForGood(start: Range, log: seq<Event>, p: nat, q: nat)
    requires p <= q <= |log| && PlayFirst(start, log, p).None?
    ensures PlayFirst(start, log, q).None?
    decreases q
  {
    if p == q {
    } else {
      StoppedForGood(start, log, p, q - 1);
    }
  }

  /** No log with an overrun in it plays. */
  lemma OverrunSpoils(start: Range, log: seq<Event>, p: nat, q: nat, reqs: seq<IdRequest>, m: nat, cache: Range)
    requires p <= |log| && PlayFirst(start, log, p) == Some(cache) && cache.lo <= cache.hi
    requires Overruns(log, p, q, reqs, m, cache)
    ensures Play(start, log).None?
  {
    OverrunStops(start, log, p, q, reqs, m, cache);
    StoppedForGood(start, log, q, |log|);
  }

  /** An overrun of the refill spoils a log just as well. */
  lemma RefillOverrunSpoils(
    before: seq<Event>, mid: seq<Event>, after: seq<Event>, cache: Range, reqs: seq<IdRequest>, k: nat,
    answer: RemoteAnswer, q: nat)
    requires Play(Range(0, 0), before) == Some(cache) && before <= mid <= after && |mid| == |before| + k
    requires k <= |reqs| && Serves(mid, |before|, |mid|, reqs, 0, cache.lo) && Wanted(reqs, k) <= cache.hi - cache.lo
    requires answer.Granted? && |mid| < |after| && after[|mid|] == Grant(answer.start, answer.count)
    requires Overruns(after, |mid| + 1, q, reqs, k, Range(answer.start, answer.start + answer.count))
    ensures Play(Range(0, 0), after).None?
  {
    PlayPrefix(Range(0, 0), before, mid, |before|);
    PlayServes(Range(0, 0), mid, |before|, |mid|, reqs, 0, cache);
    PlayPrefix(Range(0, 0), mid, after, |mid|);
    OverrunSpoils(Range(0, 0), after, |mid| + 1, q, reqs, k, Range(answer.start, answer.start + answer.count));
  }

  /** A round served the requests `m .. k` from `start` on: those that fit the room there was, or, when the misfit
      is not seen, too many. */
  ghost predicate Round(
    log: seq<Event>, log': seq<Event>, reqs: seq<IdRequest>, m: nat, k: nat, start: int, room: int)
  {
    && 0 <= room < TWO_32
    && m <= k <= |reqs| && log <= log' && |log'| == |log| + (k - m)
    && Serves(log', |log|, |log'|, reqs, m, start)
    && (k == Fitting(reqs, m, room) <==> MisfitSeen(reqs, m, room))
    && (Wanted(reqs, k) - Wanted(reqs, m) <= room <==> MisfitSeen(reqs, m, room))
  }

  /** Picking and finishing are a round. */
  lemma RoundIsDone(
    log: seq<Event>, log': seq<Event>, todo: seq<IdRequest>, picked: seq<IdRequest>, reqs: seq<IdRequest>, m: nat,
    j: nat,
    start: int, room: uint32)
    requires Stretch(todo, reqs, m) && m + |todo| == |reqs| && PickedUpTo(todo, j, room) && picked == todo[..j]
    requires log <= log' && |log'| == |log| + j && Serves(log', |log|, |log'|, picked, 0, start)
    ensures Round(log, log', reqs, m, m + j, start, room)
    ensures Wanted(picked, j) == Wanted(reqs, m + j) - Wanted(reqs, m)
  {
    assert Stretch(picked, reqs, m);
    PickedFrom(todo, reqs, m, j, room);
    WantedStretch(picked, reqs, m, j);
    ServesStretch(log', |log|, |log'|, picked, reqs, m, start);
  }

  /** How many grants a refill for the requests from `k` on logs. */
  function Grants(reqs: seq<IdRequest>, k: nat, answer: RemoteAnswer): nat {
    if k < |reqs| && answer.Granted? then 1 else 0
  }

  /** A refill for the requests from `k` on went as the reference says, or its round overran the grant up to `q`. */
  ghost predicate Refill(
    log: seq<Event>, log': seq<Event>, reqs: seq<IdRequest>, k: nat, answer: RemoteAnswer, q: nat, cache: Range,
    cache': Range)
    requires k <= |reqs|
  {
    && log <= log'
    && EachAnswered(log', |log| - k, k, Grants(reqs, k, answer), reqs, k)
    && if k == |reqs| then log' == log && cache' == cache
       else if answer.Granted? && !MisfitSeen(reqs, k, answer.count) then
         && |log| < |log'| && log'[|log|] == Grant(answer.start, answer.count)
         && Overruns(log', |log| + 1, q, reqs, k, Range(answer.start, answer.start + answer.count))
       else RefillLogged(log', |log|, reqs, k, answer) && cache' == Refilled(cache, reqs, k, answer)
  }

  /** Requests served up to `j` and refused from there on are all answered. */
  lemma RestAnswered(
    log: seq<Event>, b: nat, q: nat, reqs: seq<IdRequest>, k: nat, j: nat, grants: nat, start: int, remoteError: bool)
    requires k <= j <= |reqs| && q == b + grants + (j - k) && |log| == q + (|reqs| - j)
    requires forall x :: b <= x < b + grants ==> log[x].Grant?
    requires Serves(log, b + grants, q, reqs, k, start) && Refuses(log, q, |log|, reqs, j, remoteError)
    ensures EachAnswered(log, b - k, k, grants, reqs, k)
  {
    var o := b - k;
    forall i | k <= i < |reqs| ensures AnsweredAt(log, o, k, grants, reqs, i) {
      var x := o + i + grants;
      if i < j {
        assert log[x] == ServeEvent(reqs, k, start, k + (x - (b + grants)));
      } else {
        assert log[x] == Refused(reqs[j + (x - q)].token, remoteError);
      }
    }
  }

  /** The events after a grant, served up to `j` and refused from there on. */
  ghost predicate AfterGrant(
    log: seq<Event>, b: nat, q: nat, reqs: seq<IdRequest>, k: nat, j: nat, answer: RemoteAnswer)
    requires answer.Granted?
  {
    && k < |reqs| && k <= j <= |reqs| && q == b + 1 + (j - k) && |log| == q + (|reqs| - j)
    && log[b] == Grant(answer.start, answer.count)
    && Serves(log, b + 1, q, reqs, k, answer.start) && Refuses(log, q, |log|, reqs, j, false)
  }

  lemma AfterGrantSeen(log: seq<Event>, b: nat, q: nat, reqs: seq<IdRequest>, k: nat, j: nat, answer: RemoteAnswer)
    requires answer.Granted? && AfterGrant(log, b, q, reqs, k, j, answer) && j == Fitting(reqs, k, answer.count)
    ensures RefillLogged(log, b, reqs, k, answer)
  {
  }

  lemma AfterGrantAnswers(log: seq<Event>, b: nat, q: nat, reqs: seq<IdRequest>, k: nat, j: nat, answer: RemoteAnswer)
    requires answer.Granted? && AfterGrant(log, b, q, reqs, k, j, answer)
    ensures EachAnswered(log, b - k, k, 1, reqs, k)
  {
    RestAnswered(log, b, q, reqs, k, j, 1, answer.start, false);
  }

  /** A grant, a round over it, and the refusals after it are a refill. */
  lemma RefillEnds(
    before: seq<Event>, granted: seq<Event>, mid: seq<Event>, after: seq<Event>, reqs: seq<IdRequest>, k: nat, j: nat,
    answer: RemoteAnswer, cache: Range, cache': Range)
    requires k < |reqs| && answer.Granted? && granted == before + [Grant(answer.start, answer.count)]
    requires Round(granted, mid, reqs, k, j, answer.start, answer.count)
    requires mid <= after && |after| == |mid| + (|reqs| - j) && Refuses(after, |mid|, |after|, reqs, j, false)
    requires cache' == Range(answer.start + Wanted(reqs, j) - Wanted(reqs, k), answer.start + answer.count)
    ensures Refill(before, after, reqs, k, answer, |mid|, cache, cache')
  {
    var b, q := |before|, |mid|;
    assert AfterGrant(after, b, q, reqs, k, j, answer) by {
      assert after[b] == granted[b] == Grant(answer.start, answer.count);
      ServesKept(mid, after, b + 1, q, reqs, k, answer.start);
    }
    AfterGrantAnswers(after, b, q, reqs, k, j, answer);
    if MisfitSeen(reqs, k, answer.count) {
      AfterGrantSeen(after, b, q, reqs, k, j, answer);
    }
  }

  /** Without a grant everything left is refused, if anything is. */
  lemma RefillFails(
    before: seq<Event>, after: seq<Event>, reqs: seq<IdRequest>, k: nat, answer: RemoteAnswer, cache: Range,
    remoteError: bool)
    requires k <= |reqs| && (k < |reqs| ==> answer.RemoteError? && remoteError)
    requires before <= after && |after| == |before| + (|reqs| - k)
    requires Refuses(after, |before|, |after|, reqs, k, remoteError)
    ensures Refill(before, after, reqs, k, answer, |before|, cache, cache)
  {
    RestAnswered(after, |before|, |before|, reqs, k, k, 0, 0, remoteError);
  }

  /** A round that serves the first `k` requests, and a refill that answers the others, answer each. */
  lemma TurnAnswers(
    before: seq<Event>, mid: seq<Event>, after: seq<Event>, cache: Range, reqs: seq<IdRequest>, k: nat, grants: nat)
    requires Round(before, mid, reqs, 0, k, cache.lo, cache.hi - cache.lo) && mid <= after
    requires EachAnswered(after, |mid| - k, k, grants, reqs, k)
    ensures EachAnswered(after, |before|, k, grants, reqs, 0)
  {
    forall i | 0 <= i < k ensures AnsweredAt(after, |before|, k, grants, reqs, i) {
      var x := |before| + i;
      assert after[x] == mid[x] == ServeEvent(reqs, 0, cache.lo, 0 + (x - |before|));
    }
  }

  /** A round that overran spoils the log; so does a refill that did. */
  lemma UnseenSpoils(
    before: seq<Event>, mid: seq<Event>, after: seq<Event>, cache: Range, reqs: seq<IdRequest>, k: nat,
    answer: RemoteAnswer, q: nat,
    cache': Range)
    requires Play(Range(0, 0), before) == Some(cache)
    requires Round(before, mid, reqs, 0, k, cache.lo, cache.hi - cache.lo) && !TurnSeen(cache, reqs, answer)
    requires Refill(mid, after, reqs, k, answer, q, Range(cache.lo + Wanted(reqs, k), cache.hi), cache')
    ensures Play(Range(0, 0), after).None?
  {
    if MisfitSeen(reqs, 0, cache.hi - cache.lo) {
      RefillOverrunSpoils(before, mid, after, cache, reqs, k, answer, q);
    } else {
      PlayPrefix(Range(0, 0), before, after, |before|);
      ServesKept(mid, after, |before|, |mid|, reqs, 0, cache.lo);
      OverrunSpoils(Range(0, 0), after, |before|, |mid|, reqs, 0, cache);
    }
  }

  /** A round and a refill are a turn as the reference describes it exactly when no total wraps unseen. */
  lemma TurnEnds(
    before: seq<Event>, mid: seq<Event>, after: seq<Event>, cache: Range, reqs: seq<IdRequest>, k: nat,
    answer: RemoteAnswer, q: nat,
    cache': Range)
    requires Play(Range(0, 0), before) == Some(cache)
    requires Round(before, mid, reqs, 0, k, cache.lo, cache.hi - cache.lo)
    requires Refill(mid, after, reqs, k, answer, q, Range(cache.lo + Wanted(reqs, k), cache.hi), cache')
    ensures
      TurnSeen(cache, reqs, answer) ==>
        && TurnLogged(after, |before|, cache, reqs, answer) && cache' == TurnCache(cache, reqs, answer)
        && Play(Range(0, 0), after) == Some(cache') && cache'.lo <= cache'.hi < cache'.lo + TWO_32
    ensures !TurnSeen(cache, reqs, answer) ==> Play(Range(0, 0), after).None?
  {
    if TurnSeen(cache, reqs, answer) {
      TurnIsLogged(before, mid, after, cache, reqs, k, answer);
      TurnCacheBounds(cache, reqs, answer);
    } else {
      UnseenSpoils(before, mid, after, cache, reqs, k, answer, q, cache');
    }
  }

  class IDAllocator {
    const countPerRPC: uint32
    var idStart: int
    var idEnd: int
    var toDoReqs: seq<IdRequest>
    var canDoReqs: seq<IdRequest>
    var syncFailed: bool      // the last sync returned an error
    var log: seq<Event>       // every notification sent and every range received

    /** Between turns nothing is pending, and the log accounts for the cached range. */
    ghost predicate Valid()
      reads this
    {
      && toDoReqs == [] && canDoReqs == []
      && idStart <= idEnd < idStart + TWO_32
      && Play(Range(0, 0), log) == Some(Range(idStart, idEnd))
    }

    constructor ()
      ensures Valid() && log == [] && countPerRPC == ID_COUNT_PER_RPC
    {
      countPerRPC := ID_COUNT_PER_RPC;
      idStart, idEnd := 0, 0;
      toDoReqs, canDoReqs := [], [];
      syncFailed := false;
      log := [];
    }

    /** Drains the request channel into the to-do list. */
    method Receive(received: seq<IdRequest>)
      requires toDoReqs == []
      modifies this`toDoReqs
      ensures toDoReqs == received
    {
      for i := 0 to |received|
        invariant toDoReqs == received[..i]
      {
        toDoReqs := toDoReqs + [received[i]];
      }
    }

    method GatherReqIDCount() returns (need: uint32)
      ensures need == Wrap(Wanted(toDoReqs, |toDoReqs|))
    {
      need := 0;
      for i := 0 to |toDoReqs|
        invariant need == Wrap(Wanted(toDoReqs, i))
      {
        need := Wrap(need + toDoReqs[i].count);
      }
    }

    /** Asks the remote for IDs; its answer replaces the cached range. */
    method SyncID(answer: RemoteAnswer) returns (ok: bool, asked: uint32)
      modifies this`idStart, this`idEnd, this`log, this`syncFailed
      ensures asked == Asked(Wrap(Wanted(toDoReqs, |toDoReqs|)), countPerRPC)
      ensures asked >= countPerRPC && (Wanted(toDoReqs, |toDoReqs|) < TWO_32 ==> asked >= Wanted(toDoReqs, |toDoReqs|))
      ensures ok == answer.Granted? && syncFailed == !ok
      ensures ok ==> idStart == answer.start && idEnd == answer.start + answer.count
      ensures ok ==> log == old(log) + [Grant(answer.start, answer.count)]
      ensures !ok ==> idStart == old(idStart) && idEnd == old(idEnd) && log == old(log)
    {
      asked := GatherReqIDCount();
      if asked < countPerRPC {
        asked := countPerRPC;
      }
      match answer {
        case RemoteError =>
          ok, syncFailed := false, true;
        case Granted(s, n) =>
          idStart, idEnd := s, s + n;
          log := log + [Grant(s, n)];
          ok, syncFailed := true, false;
      }
    }

    method Sync(timeout: bool, answer: RemoteAnswer) returns (ok: bool)
      modifies this`idStart, this`idEnd, this`log, this`syncFailed
      ensures ok <==> (timeout || toDoReqs != []) && answer.Granted?
      ensures timeout || toDoReqs != [] ==> syncFailed == !ok
      ensures ok ==> idStart == answer.start && idEnd == answer.start + answer.count
      ensures ok ==> log == old(log) + [Grant(answer.start, answer.count)]
      ensures !ok ==> idStart == old(idStart) && idEnd == old(idEnd) && log == old(log)
    {
      if !timeout && |toDoReqs| == 0 {
        return false;
      }
      var asked;
      ok, asked := SyncID(answer);
    }

    /** Moves leading requests over until the wrapped running total exceeds the wrapped size of the cache. */
    method PickCanDo() returns (ghost k: nat)
      requires canDoReqs == []
      modifies this`toDoReqs, this`canDoReqs
      ensures PickedUpTo(old(toDoReqs), k, Wrap(idEnd - idStart))
      ensures canDoReqs == old(toDoReqs)[..k]
      ensures toDoReqs == old(toDoReqs)[k..]
    {
      var total := Wrap(idEnd - idStart);
      var need: uint32 := 0;
      var idx := 0;
      while idx < |toDoReqs|
        invariant idx <= |toDoReqs| && toDoReqs == old(toDoReqs)
        invariant need == Running(toDoReqs, idx)
        invariant forall j :: 0 <= j <= idx ==> Running(toDoReqs, j) <= total
        invariant canDoReqs == toDoReqs[..idx]
      {
        RunningNext(toDoReqs, idx);
        need := Wrap(need + toDoReqs[idx].count);
        if need <= total {
          canDoReqs := canDoReqs + [toDoReqs[idx]];
          idx := idx + 1;
        } else {
          break;
        }
      }
      k := idx;
      toDoReqs := toDoReqs[idx..];
    }

    /** Hands the next IDs to every picked request and notifies it. */
    method FinishRequest()
      modifies this`idStart, this`log, this`canDoReqs
      ensures canDoReqs == []
      ensures idStart == old(idStart) + Wanted(old(canDoReqs), |old(canDoReqs)|)
      ensures |log| == |old(log)| + |old(canDoReqs)| && old(log) <= log
      ensures Serves(log, |old(log)|, |log|, old(canDoReqs), 0, old(idStart))
    {
      for i := 0 to |canDoReqs|
        invariant canDoReqs == old(canDoReqs)
        invariant idStart == old(idStart) + Wanted(canDoReqs, i)
        invariant |log| == |old(log)| + i && old(log) <= log
        invariant Serves(log, |old(log)|, |log|, canDoReqs, 0, old(idStart))
      {
        log := log + [Served(canDoReqs[i].token, idStart, canDoReqs[i].count)];
        idStart := idStart + canDoReqs[i].count;
      }
      canDoReqs := [];
    }

    /** Notifies every request still waiting that it failed. */
    method FailRemainRequest()
      modifies this`log, this`toDoReqs
      ensures toDoReqs == []
      ensures |log| == |old(log)| + |old(toDoReqs)| && old(log) <= log
      ensures Refuses(log, |old(log)|, |log|, old(toDoReqs), 0, syncFailed)
    {
      for i := 0 to |toDoReqs|
        invariant toDoReqs == old(toDoReqs)
        invariant |log| == |old(log)| + i && old(log) <= log
        invariant Refuses(log, |old(log)|, |log|, toDoReqs, 0, syncFailed)
      {
        log := log + [Refused(toDoReqs[i].token, syncFailed)];
      }
      toDoReqs := [];
    }

    /** Notifies everybody who forced a sync that it is over. */
    method FinishSyncRequest(tokens: seq<int>)
      modifies this`log
      ensures |log| == |old(log)| + |tokens| && old(log) <= log
      ensures forall x :: |old(log)| <= x < |log| ==> log[x] == Synced(tokens[x - |old(log)|])
    {
      for i := 0 to |tokens|
        invariant |log| == |old(log)| + i && old(log) <= log
        invariant forall x :: |old(log)| <= x < |log| ==> log[x] == Synced(tokens[x - |old(log)|])
      {
        log := log + [Synced(tokens[i])];
      }
    }

    /** One round of picking and finishing, over the requests from `m` on that are still waiting. */
    method ServePending(ghost reqs: seq<IdRequest>, ghost m: nat) returns (ghost k: nat)
      requires Stretch(toDoReqs, reqs, m) && m + |toDoReqs| == |reqs| && canDoReqs == []
      requires idStart <= idEnd < idStart + TWO_32
      modifies this`idStart, this`log, this`toDoReqs, this`canDoReqs
      ensures Round(old(log), log, reqs, m, k, old(idStart), idEnd - old(idStart))
      ensures Stretch(toDoReqs, reqs, k) && k + |toDoReqs| == |reqs| && canDoReqs == []
      ensures idStart == old(idStart) + Wanted(reqs, k) - Wanted(reqs, m)
    {
      ghost var todo := toDoReqs;
      ghost var j := PickCanDo();
      k := m + j;
      ghost var picked := canDoReqs;
      FinishRequest();
      RoundIsDone(old(log), log, todo, picked, reqs, m, j, old(idStart), idEnd - old(idStart));
    }

    /** One sync for the requests from `k` on, unless there are none; what it cannot serve is refused. */
    method RefillPending(ghost reqs: seq<IdRequest>, ghost k: nat, answer: RemoteAnswer) returns (ghost q: nat)
      requires Stretch(toDoReqs, reqs, k) && k + |toDoReqs| == |reqs| && canDoReqs == []
      modifies this`idStart, this`idEnd, this`log, this`syncFailed, this`toDoReqs, this`canDoReqs
      ensures toDoReqs == [] && canDoReqs == []
      ensures Refill(old(log), log, reqs, k, answer, q, Range(old(idStart), old(idEnd)), Range(idStart, idEnd))
    {
      var ok := Sync(false, answer);
      ghost var j, granted := k, log;
      if ok {
        j := ServePending(reqs, k);
      }
      q := |log|;
      ghost var mid, refused := log, toDoReqs;
      FailRemainRequest();
      RefusesStretch(log, q, |log|, refused, reqs, j, syncFailed);
      ghost var cache, cache' := Range(old(idStart), old(idEnd)), Range(idStart, idEnd);
      if ok {
        RefillEnds(old(log), granted, mid, log, reqs, k, j, answer, cache, cache');
      } else {
        RefillFails(old(log), log, reqs, k, answer, cache, syncFailed);
      }
    }

    /** The turn taken when requests arrive: each is served or refused, and notified, once and in order. It goes as the
        reference says, and leaves the allocator valid, exactly when no total wraps unseen. */
    method RequestsTurn(received: seq<IdRequest>, answer: RemoteAnswer) returns (ghost k: nat)
      requires Valid()
      modifies this
      ensures old(log) <= log && toDoReqs == [] && canDoReqs == []
      ensures EachAnswered(log, |old(log)|, k, Grants(received, k, answer), received, 0)
      ensures
        TurnSeen(Range(old(idStart), old(idEnd)), received, answer) ==>
          && TurnLogged(log, |old(log)|, Range(old(idStart), old(idEnd)), received, answer)
          && Range(idStart, idEnd) == TurnCache(Range(old(idStart), old(idEnd)), received, answer)
      ensures Valid() <==> TurnSeen(Range(old(idStart), old(idEnd)), received, answer)
    {
      ghost var cache := Range(idStart, idEnd);
      Receive(received);
      k := ServePending(received, 0);
      ghost var before := log;
      ghost var q := RefillPending(received, k, answer);
      TurnAnswers(old(log), before, log, cache, received, k, Grants(received, k, answer));
      TurnEnds(old(log), before, log, cache, received, k, answer, q, Range(idStart, idEnd));
    }

    /** The turn taken when the timer fires: nobody is waiting, and the cache is replaced. */
    method TickTurn(answer: RemoteAnswer)
      requires Valid()
      modifies this
      ensures old(log) <= log
      ensures SyncLogged(log, |old(log)|, answer, [])
      ensures Range(idStart, idEnd) == SyncCache(Range(old(idStart), old(idEnd)), answer)
      ensures Valid()
    {
      ghost var cache := Range(idStart, idEnd);
      ghost var k := ServePending([], 0);
      var ok := Sync(true, answer);
      if ok {
        k := ServePending([], 0);
      }
      FailRemainRequest();
      PlayPrefix(Range(0, 0), old(log), log, |old(log)|);
      PlaySync(Range(0, 0), log, |old(log)|, cache, answer, []);
    }

    /** The turn taken when a forced sync is requested: the waiting callers are told it is over, whatever came of it. */
    method ForcedSyncTurn(tokens: seq<int>, answer: RemoteAnswer)
      requires Valid()
      modifies this
      ensures old(log) <= log
      ensures SyncLogged(log, |old(log)|, answer, tokens)
      ensures Range(idStart, idEnd) == SyncCache(Range(old(idStart), old(idEnd)), answer)
      ensures Valid()
    {
      ghost var cache := Range(idStart, idEnd);
      var ok := Sync(true, answer);
      FinishSyncRequest(tokens);
      PlayPrefix(Range(0, 0), old(log), log, |old(log)|);
      PlaySync(Range(0, 0), log, |old(log)|, cache, answer, tokens);
    }
  }
}
