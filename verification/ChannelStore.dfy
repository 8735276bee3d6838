/** The channel store: node by node in memory, and batch by batch into the key-value store. */
module ChannelStore {
  import opened ChannelKeys
  import opened ChannelMoves
  import opened Orders
  import opened Wrappers

  const MAX_OPERATIONS_PER_TXN := 64

  // ---------------------------------------------------------------- operation sets

  datatype ChannelArg = ChannelArg(name: Name, info: WatchInfo)

  datatype ChannelOp = ChannelOp(kind: OpType, node: NodeID, channels: seq<ChannelArg>)

  ghost predicate Reaches(ops: seq<ChannelOp>, i: nat, j: nat) {
    if i < |ops| then j <= |ops[i].channels| else i == |ops| && j == 0
  }

  /** What is said about a channel by the first `i` operations and the first `j` channels of the next, in order. */
  ghost function OpsTo(ops: seq<ChannelOp>, i: nat, j: nat, c: Name): seq<Op>
    requires Reaches(ops, i, j)
    decreases i, j
  {
    if j > 0 then
      var ch := ops[i].channels[j - 1];
      if ch.name == c then OpsTo(ops, i, j - 1, c) + [Op(ops[i].kind, ops[i].node, ch.info)]
      else OpsTo(ops, i, j - 1, c)
    else if i > 0 then OpsTo(ops, i - 1, |ops[i - 1].channels|, c)
    else []
  }

  ghost predicate SplitTo(per: map<Name, seq<Op>>, ops: seq<ChannelOp>, i: nat, j: nat)
    requires Reaches(ops, i, j)
  {
    && (forall c :: c in per <==> OpsTo(ops, i, j, c) != [])
    && (forall c :: c in per ==> per[c] == OpsTo(ops, i, j, c))
  }

  ghost predicate IsSplit(per: map<Name, seq<Op>>, ops: seq<ChannelOp>) {
    SplitTo(per, ops, |ops|, 0)
  }

  /** Every channel's operations, in the order given. */
  method SplitByChannel(ops: seq<ChannelOp>) returns (per: map<Name, seq<Op>>)
    ensures IsSplit(per, ops)
  {
    per := map[];
    for i := 0 to |ops|
      invariant SplitTo(per, ops, i, 0)
    {
      var op := ops[i];
      for j := 0 to |op.channels|
        invariant SplitTo(per, ops, i, j)
      {
        var ch := op.channels[j];
        if ch.name !in per {
          per := per[ch.name := []];
        }
        per := per[ch.name := per[ch.name] + [Op(op.kind, op.node, ch.info)]];
      }
    }
  }

  ghost function Moves(per: map<Name, seq<Op>>): map<Name, Move> {
    map c | c in per :: MoveOf(per[c])
  }

  predicate SanityCheck(ops: seq<Op>) {
    if |ops| == 2 then
      (ops[0].kind == Delete && ops[1].kind == Watch) || (ops[1].kind == Delete && ops[0].kind == Watch)
    else if |ops| == 1 then ops[0].kind == Delete || ops[0].kind == Watch || ops[0].kind == Release
    else false
  }

  lemma SaneIsSupported(ops: seq<Op>)
    ensures SanityCheck(ops) <==> MoveOf(ops) != Unsupported
    ensures SanityCheck(ops) ==> 1 <= |ops| <= 2
  {
  }

  /** A delete and a watch are a transfer from the node deleted from to the node watched on, with the watch's info. */
  lemma PairIsTransfer(ops: seq<Op>, i: nat)
    requires |ops| == 2 && i < 2 && ops[i].kind == Delete && ops[1 - i].kind == Watch
    ensures SanityCheck(ops) && MoveOf(ops) == Transfer(ops[i].node, ops[1 - i].node, ops[1 - i].info)
  {
  }

  /** A delete and a watch, in either order, of a channel that the node deleted from holds: it is on the node
      watched on, to be watched there or on standby in the buffer, with the watch's info, and nowhere else. */
  lemma TransferOutcome(
    s: Store, per: map<Name, seq<Op>>, done: set<Name>, t: Store, c: Name, i: nat, n: NodeID)
    requires Good(s) && IsApplied(s, Moves(per), done, t) && c in done && c in per
    requires |per[c]| == 2 && i < 2 && per[c][i].kind == Delete && per[c][1 - i].kind == Watch
    requires Key(per[c][i].node, c) in s.cells && per[c][i].node != per[c][1 - i].node
    requires per[c][1 - i].info.name == c
    ensures
      var target := per[c][1 - i].node;
      && At(t, Key(n, c)) ==
           (if n == target then Some(Channel(n, if n == BUFFER then Standby else ToWatch)) else None)
      && KvAt(t, Key(n, c)) == if n == target then Some(per[c][1 - i].info) else None
  {
    PairIsTransfer(per[c], i);
    AppliedOutcome(s, Moves(per), done, t, c, n);
  }

  /** One operation alone, of a channel that no other node holds: a watch brings it to its node or marks it there, a
      release marks it, a delete on a real node takes it away. */
  lemma SingleOutcome(s: Store, per: map<Name, seq<Op>>, done: set<Name>, t: Store, c: Name, n: NodeID)
    requires Good(s) && IsApplied(s, Moves(per), done, t) && c in done && c in per
    requires |per[c]| == 1 && per[c][0].info.name == c && forall m :: m != per[c][0].node ==> Key(m, c) !in s.cells
    ensures
      var op, k := per[c][0], Key(n, c);
      && (op.kind == Watch ==>
            var state := if n == BUFFER && k !in s.cells then Standby else ToWatch;
            && At(t, k) == (if n == op.node then Some(Channel(n, state)) else None)
            && KvAt(t, k) == if n == op.node then Some(op.info) else None)
      && (op.kind == Release && Key(op.node, c) in s.cells ==>
            && At(t, k) == (if n == op.node then Some(Channel(n, ToRelease)) else None)
            && KvAt(t, k) == if n == op.node then Some(op.info) else None)
      && (op.kind == Delete && op.node != BUFFER ==> At(t, k) == None && KvAt(t, k) == None)
  {
    var op := per[c][0];
    var held, node := Key(op.node, c) in s.cells, op.node != BUFFER;
    if op.kind == Watch || (held && (op.kind == Release || (op.kind == Delete && node))) {
      AppliedOutcome(s, Moves(per), done, t, c, n);
    } else if op.kind == Delete {
      MemoryOutcome(s, Moves(per), done, t, c, n);
      KvOutcome(s, Moves(per), done, t, c, n);
    }
  }

  // ---------------------------------------------------------------- transactions

  /** What a move saves on a node, if anything. */
  function SavedOn(m: Move, node: NodeID): Option<WatchInfo> {
    match m
    case Transfer(_, target, info) => if node == target then Some(info) else None
    case Start(n, info) => if node == n then Some(info) else None
    case Stop(n, info) => if node == n then Some(info) else None
    case _ => None
  }

  predicate RemovedOn(m: Move, node: NodeID) {
    match m
    case Transfer(source, _, _) => node == source
    case Drop(n) => node == n
    case _ => false
  }

  function Look(m: map<Key, WatchInfo>, k: Key): Option<WatchInfo> {
    if k in m then Some(m[k]) else None
  }

  /** The saves and removals of the channels in `done`. */
  ghost predicate Built(saves: map<Key, WatchInfo>, removals: set<Key>, moves: map<Name, Move>, done: set<Name>) {
    && (forall c :: c in done ==> c in moves)
    && (forall k :: Look(saves, k) == if k.name in done then SavedOn(moves[k.name], k.node) else None)
    && (forall k :: k in removals <==> k.name in done && RemovedOn(moves[k.name], k.node))
  }

  ghost function SavedTo(ops: seq<Op>, j: nat, node: NodeID): Option<WatchInfo>
    requires j <= |ops|
  {
    if j == 0 then None
    else if ops[j - 1].kind != Delete && ops[j - 1].node == node then Some(ops[j - 1].info)
    else SavedTo(ops, j - 1, node)
  }

  ghost predicate RemovedTo(ops: seq<Op>, j: nat, node: NodeID)
    requires j <= |ops|
  {
    j > 0 && ((ops[j - 1].kind == Delete && ops[j - 1].node == node) || RemovedTo(ops, j - 1, node))
  }

  lemma BuiltIsMove(ops: seq<Op>, node: NodeID)
    requires SanityCheck(ops)
    ensures SavedTo(ops, |ops|, node) == SavedOn(MoveOf(ops), node)
    ensures RemovedTo(ops, |ops|, node) == RemovedOn(MoveOf(ops), node)
  {
    assert SavedTo(ops, 0, node) == None && !RemovedTo(ops, 0, node);
    assert SavedTo(ops, 1, node) == if ops[0].kind != Delete && ops[0].node == node then Some(ops[0].info) else None;
    assert RemovedTo(ops, 1, node) == (ops[0].kind == Delete && ops[0].node == node);
  }

  /** Adds one channel's keys. */
  method BuildKV(
    c: Name, ops: seq<Op>, saves: map<Key, WatchInfo>, removals: set<Key>, ghost moves: map<Name, Move>,
    ghost done: set<Name>)
    returns (saves': map<Key, WatchInfo>, removals': set<Key>)
    requires Built(saves, removals, moves, done) && c in moves && c !in done
      && moves[c] == MoveOf(ops) && SanityCheck(ops)
    ensures Built(saves', removals', moves, done + {c})
  {
    saves', removals' := saves, removals;
    for j := 0 to |ops|
      invariant forall k :: Look(saves', k) == if k.name == c then SavedTo(ops, j, k.node) else Look(saves, k)
      invariant forall k :: k in removals' <==> if k.name == c then RemovedTo(ops, j, k.node) else k in removals
    {
      var k := Key(ops[j].node, c);
      if ops[j].kind == Delete {
        removals' := removals' + {k};
      } else {
        saves' := saves'[k := ops[j].info];
      }
    }
    forall node
      ensures SavedTo(ops, |ops|, node) == SavedOn(moves[c], node)
        && RemovedTo(ops, |ops|, node) == RemovedOn(moves[c], node)
    {
      BuiltIsMove(ops, node);
    }
  }

  /** Saves and removals in one step carry the key-value store on by these channels' moves. */
  lemma TxnApplies(
    start: Store, moves: map<Name, Move>, done: set<Name>, t: Store,
    saves: map<Key, WatchInfo>, removals: set<Key>, batch: set<Name>, u: Store)
    requires KvApplied(start, moves, done, t) && Built(saves, removals, moves, batch) && done !! batch
    requires u.kv == (t.kv + saves) - removals
    ensures KvApplied(start, moves, done + batch, u)
  {
  }

  /** The number of operations on the first `n` channels of a batch. */
  ghost function OpCount(per: map<Name, seq<Op>>, batch: seq<Name>, n: nat): nat
    requires n <= |batch| && forall i :: 0 <= i < |batch| ==> batch[i] in per
  {
    if n == 0 then 0 else OpCount(per, batch, n - 1) + |per[batch[n - 1]]|
  }

  lemma {:induction false} OpCountPrefix(per: map<Name, seq<Op>>, batch: seq<Name>, c: Name, n: nat)
    requires n <= |batch| && c in per && forall i :: 0 <= i < |batch| ==> batch[i] in per
    ensures OpCount(per, batch + [c], n) == OpCount(per, batch, n)
  {
    if n == 0 {
    } else {
      OpCountPrefix(per, batch, c, n - 1);
    }
  }

  /** Channels whose moves are yet to be made, each once. */
  ghost predicate IsBatch(batch: seq<Name>, per: map<Name, seq<Op>>, moves: map<Name, Move>, done: set<Name>) {
    && (forall i :: 0 <= i < |batch| ==> IsPending(batch[i], per, moves, done))
    && (forall i, j :: 0 <= i < j < |batch| ==> batch[i] != batch[j])
  }

  ghost predicate IsPending(c: Name, per: map<Name, seq<Op>>, moves: map<Name, Move>, done: set<Name>) {
    c in per && SanityCheck(per[c]) && c in moves && moves[c] == MoveOf(per[c]) && c !in done
  }

  method BuildBatch(batch: seq<Name>, per: map<Name, seq<Op>>, ghost moves: map<Name, Move>, ghost done: set<Name>)
    returns (saves: map<Key, WatchInfo>, removals: set<Key>)
    requires IsBatch(batch, per, moves, done)
    ensures Built(saves, removals, moves, Members(batch)) && done !! Members(batch)
  {
    saves, removals := map[], {};
    ghost var built := {};
    for i := 0 to |batch|
      invariant Built(saves, removals, moves, built)
      invariant forall c :: c in built ==> c in batch
      invariant forall k :: 0 <= k < i ==> batch[k] in built
      invariant forall k :: i <= k < |batch| ==> batch[k] !in built
    {
      assert IsPending(batch[i], per, moves, done);
      saves, removals := BuildKV(batch[i], per[batch[i]], saves, removals, moves, built);
      built := built + {batch[i]};
    }
    assert built == Members(batch) by {
      assert forall c :: c in built <==> c in Members(batch);
    }
    forall c | c in Members(batch) ensures c !in done {
      var i :| 0 <= i < |batch| && batch[i] == c;
      assert IsPending(batch[i], per, moves, done);
    }
  }

  /** Of the batch, `rest` is still to be taken; what has been taken was added to `done`. */
  ghost predicate IsTaken(batch: seq<Name>, rest: set<Name>, done: set<Name>, now: set<Name>) {
    && (forall c :: c in rest ==> c in batch && c !in now)
    && (forall c :: c in now <==> c in done || (c in batch && c !in rest))
  }

  lemma BatchPending(batch: seq<Name>, per: map<Name, seq<Op>>, moves: map<Name, Move>, done: set<Name>, c: Name)
    requires IsBatch(batch, per, moves, done) && c in batch
    ensures IsPending(c, per, moves, done)
  {
    var i :| 0 <= i < |batch| && batch[i] == c;
  }

  lemma NoneTaken(batch: seq<Name>, per: map<Name, seq<Op>>, moves: map<Name, Move>, done: set<Name>)
    requires IsBatch(batch, per, moves, done)
    ensures IsTaken(batch, Members(batch), done, done)
  {
    forall c | c in batch ensures c !in done {
      BatchPending(batch, per, moves, done, c);
    }
  }

  lemma TakeNext(
    batch: seq<Name>, per: map<Name, seq<Op>>, moves: map<Name, Move>, rest: set<Name>, done: set<Name>,
    now: set<Name>, c: Name)
    requires IsBatch(batch, per, moves, done) && IsTaken(batch, rest, done, now) && c in rest
    ensures IsPending(c, per, moves, now)
    ensures IsTaken(batch, rest - {c}, done, now + {c})
  {
    BatchPending(batch, per, moves, done, c);
  }

  lemma AllTaken(batch: seq<Name>, rest: set<Name>, done: set<Name>, now: set<Name>)
    requires IsTaken(batch, rest, done, now) && |rest| == 0
    ensures now == done + Members(batch)
  {
    assert rest == {};
    forall c ensures c in now <==> c in done + Members(batch) {
    }
  }

  ghost predicate InFirst(batches: seq<seq<Name>>, n: int, c: Name)
    requires n <= |batches|
  {
    exists i :: 0 <= i < n && c in batches[i]
  }

  ghost predicate Apart(a: seq<Name>, b: seq<Name>) {
    forall c :: c in a ==> c !in b
  }

  ghost predicate FitsTxn(batch: seq<Name>, per: map<Name, seq<Op>>) {
    && (forall k :: 0 <= k < |batch| ==> batch[k] in per)
    && OpCount(per, batch, |batch|) <= MAX_OPERATIONS_PER_TXN
  }

  /** No batch has too many operations, and no channel is in two. */
  ghost predicate AreBatches(batches: seq<seq<Name>>, per: map<Name, seq<Op>>) {
    && (forall i :: 0 <= i < |batches| ==> FitsTxn(batches[i], per))
    && (forall i, j :: 0 <= i < j < |batches| ==> Apart(batches[i], batches[j]))
  }

  /** No batch is closed before it has to be: with the operations of the channel that comes next it would be too big. */
  ghost predicate Tight(batches: seq<seq<Name>>, per: map<Name, seq<Op>>)
    requires AreBatches(batches, per)
  {
    forall i: nat {:trigger ClosedLate(batches, i, per)} :: ClosedLate(batches, i, per)
  }

  ghost predicate ClosedLate(batches: seq<seq<Name>>, i: nat, per: map<Name, seq<Op>>)
    requires AreBatches(batches, per)
  {
    i + 1 < |batches| ==> Overflows(batches[i], batches[i + 1], per)
  }

  ghost predicate Overflows(batch: seq<Name>, next: seq<Name>, per: map<Name, seq<Op>>)
    requires FitsTxn(batch, per)
  {
    next != [] && next[0] in per && OpCount(per, batch, |batch|) + |per[next[0]]| > MAX_OPERATIONS_PER_TXN
  }

  /** The same, of the batches closed and the one that is open. */
  ghost predicate TightSoFar(batches: seq<seq<Name>>, batch: seq<Name>, per: map<Name, seq<Op>>)
    requires AreBatches(batches, per)
  {
    Tight(batches, per) && (batches != [] ==> Overflows(batches[|batches| - 1], batch, per))
  }

  lemma TightNext(batches: seq<seq<Name>>, batch: seq<Name>, per: map<Name, seq<Op>>)
    requires AreBatches(batches, per) && AreBatches(batches + [batch], per) && TightSoFar(batches, batch, per)
    ensures Tight(batches + [batch], per)
  {
    var more := batches + [batch];
    forall i: nat ensures ClosedLate(more, i, per) {
      assert ClosedLate(batches, i, per);
    }
  }

  lemma InFirstMore(batches: seq<seq<Name>>, batch: seq<Name>, c: Name)
    ensures InFirst(batches + [batch], |batches|, c) <==> InFirst(batches, |batches|, c)
    ensures InFirst(batches + [batch], |batches| + 1, c) <==> InFirst(batches, |batches|, c) || c in batch
  {
    var more := batches + [batch];
    if i :| 0 <= i < |batches| && c in batches[i] {
      assert c in more[i];
    }
    if i :| 0 <= i < |batches| && c in more[i] {
      assert c in batches[i];
    }
    assert more[|batches|] == batch;
  }

  // ---------------------------------------------------------------- batches

  /** Where an update stands: channels not looked at, the batch being filled, and what earlier batches carried out. */
  datatype Books = Books(rest: set<Name>, batch: seq<Name>, count: int, done: set<Name>, batches: seq<seq<Name>>)

  /** Every channel's operations are still to be looked at, waiting in the batch, carried out, or not supported. */
  ghost predicate Sorted(rest: set<Name>, batch: seq<Name>, done: set<Name>, per: map<Name, seq<Op>>) {
    && IsBatch(batch, per, Moves(per), done)
    && (forall c :: c in rest ==> c in per && c !in done && c !in batch)
    && (forall c :: c in per && SanityCheck(per[c]) ==> c in rest || c in done || c in batch)
    && (forall c :: c in done ==> c in per && SanityCheck(per[c]))
  }

  /** Some channel's operations could have been carried out, and were not. */
  ghost predicate Missed(per: map<Name, seq<Op>>, done: set<Name>) {
    exists c :: c in per && SanityCheck(per[c]) && c !in done
  }

  /** Exactly the channels of the first `n` batches have been carried out. */
  ghost predicate CarriedOut(batches: seq<seq<Name>>, n: int, done: set<Name>)
    requires n <= |batches|
  {
    forall c :: c in done <==> InFirst(batches, n, c)
  }

  ghost predicate Booked(b: Books, per: map<Name, seq<Op>>) {
    && Sorted(b.rest, b.batch, b.done, per)
    && FitsTxn(b.batch, per) && b.count == OpCount(per, b.batch, |b.batch|)
    && AreBatches(b.batches, per)
    && CarriedOut(b.batches, |b.batches|, b.done)
  }

  lemma BooksOpen(per: map<Name, seq<Op>>)
    ensures Booked(Books(per.Keys, [], 0, {}, []), per)
  {
  }

  lemma BookSkipped(b: Books, per: map<Name, seq<Op>>, c: Name)
    requires Booked(b, per) && c in b.rest && !SanityCheck(per[c])
    ensures Booked(b.(rest := b.rest - {c}), per)
  {
  }

  lemma SortedTaken(rest: set<Name>, batch: seq<Name>, done: set<Name>, per: map<Name, seq<Op>>, c: Name)
    requires Sorted(rest, batch, done, per) && c in rest && SanityCheck(per[c])
    ensures Sorted(rest - {c}, batch + [c], done, per)
  {
  }

  lemma SizeTaken(batch: seq<Name>, per: map<Name, seq<Op>>, c: Name)
    requires FitsTxn(batch, per) && c in per && OpCount(per, batch, |batch|) + |per[c]| <= MAX_OPERATIONS_PER_TXN
    ensures FitsTxn(batch + [c], per)
    ensures OpCount(per, batch + [c], |batch| + 1) == OpCount(per, batch, |batch|) + |per[c]|
  {
    OpCountPrefix(per, batch, c, |batch|);
  }

  lemma BookTaken(b: Books, per: map<Name, seq<Op>>, c: Name)
    requires Booked(b, per) && c in b.rest && SanityCheck(per[c]) && b.count + |per[c]| <= MAX_OPERATIONS_PER_TXN
    ensures Booked(b.(rest := b.rest - {c}, batch := b.batch + [c], count := b.count + |per[c]|), per)
  {
    SortedTaken(b.rest, b.batch, b.done, per, c);
    SizeTaken(b.batch, per, c);
  }

  lemma SortedFlushed(rest: set<Name>, batch: seq<Name>, done: set<Name>, per: map<Name, seq<Op>>)
    requires Sorted(rest, batch, done, per)
    ensures Sorted(rest, [], done + Members(batch), per)
  {
  }

  lemma BatchClosed(batches: seq<seq<Name>>, batch: seq<Name>, done: set<Name>, per: map<Name, seq<Op>>)
    requires AreBatches(batches, per) && CarriedOut(batches, |batches|, done)
    requires FitsTxn(batch, per) && IsBatch(batch, per, Moves(per), done)
    ensures AreBatches(batches + [batch], per)
    ensures CarriedOut(batches + [batch], |batches| + 1, done + Members(batch))
    ensures CarriedOut(batches + [batch], |batches|, done)
  {
    var more := batches + [batch];
    forall i, j | 0 <= i < j < |more| ensures Apart(more[i], more[j]) {
      if j == |batches| {
        BatchApart(batches, i, batch, done, per);
      }
    }
    forall c ensures c in done + Members(batch) <==> InFirst(more, |batches| + 1, c) {
      InFirstMore(batches, batch, c);
    }
    forall c ensures c in done <==> InFirst(more, |batches|, c) {
      InFirstMore(batches, batch, c);
    }
  }

  lemma BatchApart(batches: seq<seq<Name>>, i: nat, batch: seq<Name>, done: set<Name>, per: map<Name, seq<Op>>)
    requires CarriedOut(batches, |batches|, done) && i < |batches| && IsBatch(batch, per, Moves(per), done)
    ensures Apart(batches[i], batch)
  {
  }

  lemma BookFlushed(b: Books, per: map<Name, seq<Op>>)
    requires Booked(b, per)
    ensures
      Booked(b.(batch := [], count := 0, done := b.done + Members(b.batch), batches := b.batches + [b.batch]), per)
  {
    SortedFlushed(b.rest, b.batch, b.done, per);
    BatchClosed(b.batches, b.batch, b.done, per);
  }

  /** A full batch is carried out before any more operations are taken. */
  lemma RoomMade(b: Books, per: map<Name, seq<Op>>)
    requires Booked(b, per) && b.count != 0
    ensures
      Booked(b.(batch := [], count := 0, done := b.done + Members(b.batch), batches := b.batches + [b.batch]), per)
    ensures AreBatches(b.batches + [b.batch], per) && CarriedOut(b.batches + [b.batch], |b.batches|, b.done)
    ensures Missed(per, b.done)
  {
    BookFlushed(b, per);
    assert IsPending(b.batch[0], per, Moves(per), b.done);
    BatchClosed(b.batches, b.batch, b.done, per);
  }

  /** A batch closed for want of room, and the channel it was closed for in the next one, keep the batches tight. */
  lemma RoomIsNeeded(
    batches: seq<seq<Name>>, batch: seq<Name>, batches': seq<seq<Name>>, batch': seq<Name>, per: map<Name, seq<Op>>,
    c: Name)
    requires AreBatches(batches, per) && TightSoFar(batches, batch, per) && FitsTxn(batch, per) && c in per
    requires AreBatches(batches', per)
    requires
      if OpCount(per, batch, |batch|) + |per[c]| > MAX_OPERATIONS_PER_TXN
      then batches' == batches + [batch] && batch' == []
      else batches' == batches && batch' == batch
    ensures Tight(batches', per) && TightSoFar(batches', batch' + [c], per)
  {
    if batches' != batches {
      TightNext(batches, batch, per);
    }
  }

  /** How an update ends: with batches that are not too big and none closed before it had to be, no channel in two;
      those before the last, and the last if all went well, carried out, and then all supported operations are. */
  ghost predicate Ended(batches: seq<seq<Name>>, per: map<Name, seq<Op>>, ok: bool, done: set<Name>) {
    && AreBatches(batches, per) && Tight(batches, per)
    && CarriedOut(batches, if ok then |batches| else |batches| - 1, done)
    && (forall c :: c in done ==> c in per && SanityCheck(per[c]))
    && (ok <==> !Missed(per, done))
  }

  /** With the last batch all supported operations are carried out, and without it they are not. */
  lemma LastClosed(b: Books, per: map<Name, seq<Op>>)
    requires Booked(b, per) && b.rest == {} && b.count != 0 && TightSoFar(b.batches, b.batch, per)
    ensures Ended(b.batches + [b.batch], per, true, b.done + Members(b.batch))
    ensures Ended(b.batches + [b.batch], per, false, b.done)
  {
    BatchClosed(b.batches, b.batch, b.done, per);
    TightNext(b.batches, b.batch, per);
    LastTaken(b, per);
  }

  lemma LastTaken(b: Books, per: map<Name, seq<Op>>)
    requires Booked(b, per) && b.rest == {} && b.count != 0
    ensures !Missed(per, b.done + Members(b.batch)) && Missed(per, b.done)
    ensures forall c :: c in b.done + Members(b.batch) ==> c in per && SanityCheck(per[c])
  {
    assert IsPending(b.batch[0], per, Moves(per), b.done);
    SortedFlushed({}, b.batch, b.done, per);
  }

  lemma NothingLeft(b: Books, per: map<Name, seq<Op>>)
    requires Booked(b, per) && b.rest == {} && b.count == 0 && TightSoFar(b.batches, b.batch, per)
    ensures Ended(b.batches, per, true, b.done)
  {
    NothingInBatch(b, per);
  }

  lemma NothingInBatch(b: Books, per: map<Name, seq<Op>>)
    requires Booked(b, per) && b.count == 0
    ensures b.batch == []
  {
  }

  /** Two updates with the same operations that start from one store and both succeed end with one store, in whatever
      orders they took the channels and filled their batches. */
  lemma UpdateIsDetermined(
    s: Store, ops: seq<ChannelOp>, per: map<Name, seq<Op>>, done: set<Name>, t: Store,
    per': map<Name, seq<Op>>, done': set<Name>, t': Store)
    requires HoldersRegistered(s) && IsSplit(per, ops) && IsSplit(per', ops) && NoInterference(s, Moves(per))
    requires CarriedTo(s, Moves(per), done, t) && CarriedTo(s, Moves(per'), done', t')
    requires forall c :: c in done ==> c in per && SanityCheck(per[c])
    requires forall c :: c in done' ==> c in per' && SanityCheck(per'[c])
    requires !Missed(per, done) && !Missed(per', done')
    ensures t == t'
  {
    assert per == per' by {
      assert forall c :: c in per <==> c in per';
      assert forall c :: c in per ==> per[c] == per'[c];
    }
    assert done == done' by {
      assert forall c :: c in done <==> c in done';
    }
    CarriedApplies(s, Moves(per), done, t);
    CarriedApplies(s, Moves(per), done, t');
    AppliedIsUnique(s, Moves(per), done, t, t');
  }

  // ---------------------------------------------------------------- moves in memory

  lemma TransferMoves(t: Store, m: Move, c: Name, u: Store)
    requires m.Transfer? && Leaves(t, m, c)
    requires u.nodes == t.nodes + {m.target}
    requires u.cells == t.cells[Key(m.target, c) := Channel(m.target, Landing(m.target))] - {Key(m.source, c)}
    ensures OneMoved(t, m, c, u)
  {
  }

  /** One cell is set, on a node that is or becomes registered. */
  lemma SetMoves(t: Store, m: Move, c: Name, node: NodeID, ch: Channel, u: Store)
    requires u.nodes == t.nodes + {node} && u.cells == t.cells[Key(node, c) := ch]
    requires CellAfter(t, m, Key(node, c)) == Some(ch)
    requires forall n :: n != node ==> CellAfter(t, m, Key(n, c)) == At(t, Key(n, c))
    requires forall n :: Registers(t, m, c, n) ==> n == node
    requires node in t.nodes || Registers(t, m, c, node)
    ensures OneMoved(t, m, c, u)
  {
  }

  lemma DropMoves(t: Store, node: NodeID, c: Name, u: Store)
    requires node != BUFFER && u.nodes == t.nodes && u.cells == t.cells - {Key(node, c)}
    ensures OneMoved(t, Drop(node), c, u)
  {
  }

  lemma NothingMoves(t: Store, m: Move, c: Name)
    requires forall n :: CellAfter(t, m, Key(n, c)) == At(t, Key(n, c)) && !Registers(t, m, c, n)
    ensures OneMoved(t, m, c, t)
  {
  }

  // ---------------------------------------------------------------- the store

  /** Of the transactions sent from number `i` on, up to `j`, all but the last were accepted; and it all went well
      exactly if the last was too. */
  ghost predicate Answered(accepts: nat -> bool, i: nat, j: nat, ok: bool) {
    i <= j && (forall n :: i <= n < j - 1 ==> accepts(n)) && ok == (i == j || accepts(j - 1))
  }

  lemma AnsweredOn(accepts: nat -> bool, i: nat, j: nat, k: nat, ok: bool)
    requires Answered(accepts, i, j, true) && Answered(accepts, j, k, ok)
    ensures Answered(accepts, i, k, ok)
  {
  }

  class StateChannelStore {
    var channelsInfo: map<NodeID, map<Name, Channel>>
    var kv: map<Key, WatchInfo>

    // Which transactions the key-value store accepts, in the order they are sent, and how many it was sent.
    const accepts: nat -> bool
    var sent: nat

    // The same channels, by node and name together.
    ghost var cells: map<Key, Channel>

    ghost predicate Valid()
      reads this
    {
      && BUFFER in channelsInfo
      && (forall k :: k in cells <==> k.node in channelsInfo && k.name in channelsInfo[k.node])
      && (forall k :: k in cells ==> cells[k] == channelsInfo[k.node][k.name])
    }

    ghost function View(): Store
      reads this
    {
      Store(channelsInfo.Keys, cells, kv)
    }

    constructor (kv: map<Key, WatchInfo>, accepts: nat -> bool)
      ensures Valid() && View() == Store({BUFFER}, map[], kv) && this.accepts == accepts && sent == 0
    {
      channelsInfo := map[BUFFER := map[]];
      this.kv, this.accepts, sent := kv, accepts, 0;
      cells := map[];
    }

    method AddNode(node: NodeID)
      requires Valid()
      modifies this`channelsInfo
      ensures Valid() && View() == old(View()).(nodes := old(View()).nodes + {node})
    {
      if node !in channelsInfo {
        channelsInfo := channelsInfo[node := map[]];
      }
    }

    /** Forgets a node that holds nothing. */
    method RemoveNode(node: NodeID)
      requires Valid() && node != BUFFER && forall k :: k in cells ==> k.node != node
      modifies this`channelsInfo
      ensures Valid() && View() == old(View()).(nodes := old(View()).nodes - {node})
    {
      channelsInfo := channelsInfo - {node};
    }

    method AddAssignment(node: NodeID, name: Name, ch: Channel)
      requires Valid()
      modifies this`channelsInfo, this`cells
      ensures Valid()
      ensures channelsInfo.Keys == old(channelsInfo).Keys + {node} && cells == old(cells)[Key(node, name) := ch]
    {
      var channels := if node in channelsInfo then channelsInfo[node] else map[];
      channelsInfo := channelsInfo[node := channels[name := ch]];
      cells := cells[Key(node, name) := ch];
    }

    method RemoveAssignment(node: NodeID, name: Name)
      requires Valid()
      modifies this`channelsInfo, this`cells
      ensures Valid()
      ensures channelsInfo.Keys == old(channelsInfo).Keys && cells == old(cells) - {Key(node, name)}
    {
      if node in channelsInfo {
        channelsInfo := channelsInfo[node := channelsInfo[node] - {name}];
      }
      cells := cells - {Key(node, name)};
    }

    method GetChannel(node: NodeID, name: Name) returns (ch: Option<Channel>)
      requires Valid()
      ensures ch == At(View(), Key(node, name))
    {
      if node in channelsInfo && name in channelsInfo[node] {
        return Some(channelsInfo[node][name]);
      }
      return None;
    }

    /** A delete and a watch of one channel. */
    method UpdateMetaMemoryForPairOp(name: Name, ops: seq<Op>)
      requires Valid() && |ops| == 2 && SanityCheck(ops)
      modifies this`channelsInfo, this`cells
      ensures Valid() && OneMoved(old(View()), MoveOf(ops), name, View())
    {
      ghost var t, m := View(), MoveOf(ops);
      var source, target := ops[1].node, ops[0].node;
      if ops[0].kind == Delete {
        source, target := ops[0].node, ops[1].node;
      }
      if source !in channelsInfo {
        NothingMoves(t, m, name);
        return;
      }
      assert Key(source, name) in cells <==> name in channelsInfo[source];
      var landed := Channel(target, if target == BUFFER then Standby else ToWatch);
      if name in channelsInfo[source] {
        AddAssignment(target, name, landed);
        RemoveAssignment(source, name);
        TransferMoves(t, m, name, View());
      } else if target in channelsInfo && name in channelsInfo[target] {
        assert Key(target, name) in cells;
        AddAssignment(target, name, landed);
        SetMoves(t, m, name, target, landed, View());
      } else {
        assert Key(target, name) !in cells;
        NothingMoves(t, m, name);
      }
    }

    /** A release, watch or delete alone. */
    method UpdateMetaMemoryForSingleOp(name: Name, op: Op)
      requires Valid() && SanityCheck([op])
      modifies this`channelsInfo, this`cells
      ensures Valid() && OneMoved(old(View()), MoveOf([op]), name, View())
    {
      ghost var t, m := View(), MoveOf([op]);
      var stored := GetChannel(op.node, name);
      assert stored.Some? ==> op.node in t.nodes;
      match op.kind {
        case Release =>
          if stored.Some? {
            Set(op.node, name, stored.value.(state := ToRelease), m);
          } else {
            NothingMoves(t, m, name);
          }
        case Watch =>
          if stored.None? {
            Set(op.node, name, Channel(op.node, if op.node != BUFFER then ToWatch else Standby), m);
          } else {
            Set(op.node, name, stored.value.(state := ToWatch), m);
          }
        case Delete =>
          if op.node != BUFFER {
            RemoveAssignment(op.node, name);
            DropMoves(t, op.node, name, View());
          } else {
            NothingMoves(t, m, name);
          }
      }
    }

    method Set(node: NodeID, name: Name, ch: Channel, ghost m: Move)
      requires Valid() && (m.Start? || m.Stop?) && m.node == node
      requires CellAfter(View(), m, Key(node, name)) == Some(ch)
      requires node in channelsInfo || m.Start?
      modifies this`channelsInfo, this`cells
      ensures Valid() && OneMoved(old(View()), m, name, View())
    {
      ghost var t := View();
      AddAssignment(node, name, ch);
      SetMoves(t, m, name, node, ch, View());
    }

    /** One channel's operations, in memory. */
    method UpdateMemoryOf(c: Name, ops: seq<Op>)
      requires Valid() && SanityCheck(ops)
      modifies this`channelsInfo, this`cells
      ensures Valid() && OneMoved(old(View()), MoveOf(ops), c, View())
    {
      if |ops| == 2 {
        UpdateMetaMemoryForPairOp(c, ops);
      } else {
        assert ops == [ops[0]];
        UpdateMetaMemoryForSingleOp(c, ops[0]);
      }
    }

    /** One more channel's operations, in memory. */
    method UpdateMemoryNext(
      c: Name, ops: seq<Op>, ghost start: Store, ghost moves: map<Name, Move>, ghost done: set<Name>)
      requires Valid() && Ran(start, moves, done, View())
      requires SanityCheck(ops) && c in moves && moves[c] == MoveOf(ops) && c !in done
      modifies this`channelsInfo, this`cells
      ensures Valid() && Ran(start, moves, done + {c}, View())
    {
      ghost var t := View();
      UpdateMemoryOf(c, ops);
      RanNext(start, moves, done, t, c, View());
    }

    /** The channels of a batch, one after the other in any order. */
    method UpdateMemory(
      batch: seq<Name>, per: map<Name, seq<Op>>,
      ghost start: Store, ghost moves: map<Name, Move>, ghost done: set<Name>)
      requires Valid() && Ran(start, moves, done, View()) && IsBatch(batch, per, moves, done)
      modifies this`channelsInfo, this`cells
      ensures Valid() && Ran(start, moves, done + Members(batch), View())
    {
      var rest := set c | c in batch;
      ghost var now := done;
      NoneTaken(batch, per, moves, done);
      while |rest| != 0
        invariant Valid() && Ran(start, moves, now, View())
        invariant IsTaken(batch, rest, done, now)
        decreases |rest|
      {
        var c := AnyOf(rest);
        TakeNext(batch, per, moves, rest, done, now, c);
        UpdateMemoryNext(c, per[c], start, moves, now);
        rest, now := rest - {c}, now + {c};
      }
      AllTaken(batch, rest, done, now);
    }

    /** All keys of a batch in one transaction, which may be refused as a whole. */
    method Txn(
      batch: seq<Name>, per: map<Name, seq<Op>>,
      ghost start: Store, ghost moves: map<Name, Move>, ghost done: set<Name>)
      returns (ok: bool)
      requires KvApplied(start, moves, done, View()) && IsBatch(batch, per, moves, done)
      modifies this`kv, this`sent
      ensures sent == old(sent) + 1 && ok == accepts(old(sent))
      ensures !ok ==> kv == old(kv)
      ensures ok ==> KvApplied(start, moves, done + Members(batch), View())
    {
      var saves, removals := BuildBatch(batch, per, moves, done);
      ok, sent := accepts(sent), sent + 1;
      if ok {
        ghost var t := View();
        kv := (kv + saves) - removals;
        TxnApplies(start, moves, done, t, saves, removals, Members(batch), View());
      }
    }

    /** A batch takes effect in the key-value store and in memory, or in neither. */
    method UpdateMeta(
      batch: seq<Name>, per: map<Name, seq<Op>>,
      ghost start: Store, ghost moves: map<Name, Move>, ghost done: set<Name>)
      returns (ok: bool)
      requires Valid() && CarriedTo(start, moves, done, View()) && IsBatch(batch, per, moves, done)
      modifies this
      ensures Valid() && CarriedTo(start, moves, if ok then done + Members(batch) else done, View())
      ensures sent == old(sent) + 1 && ok == accepts(old(sent))
      ensures !ok ==> View() == old(View())
    {
      ghost var t := View();
      ok := Txn(batch, per, start, moves, done);
      if ok {
        RanSame(start, moves, done, t, View());
        ghost var u := View();
        UpdateMemory(batch, per, start, moves, done);
        KvSame(start, moves, done + Members(batch), u, View());
      }
    }

    /** Splits the operations by channel and carries out those it supports, at most 64 operations at a time, no
        channel's in two parts. It stops at the first transaction that fails, with all batches before it carried
        out. */
    method Update(ops: seq<ChannelOp>)
      returns (ok: bool, ghost per: map<Name, seq<Op>>, ghost done: set<Name>, ghost batches: seq<seq<Name>>)
      requires Valid()
      modifies this
      ensures Valid() && IsSplit(per, ops)
      ensures CarriedTo(old(View()), Moves(per), done, View())
      ensures Ended(batches, per, ok, done)
      ensures sent == old(sent) + |batches| && Answered(accepts, old(sent), sent, ok)
    {
      var split := SplitByChannel(ops);
      per := split;
      ghost var start, moves := View(), Moves(split);
      var rest, batch, count := split.Keys, [], 0;
      done, batches := {}, [];
      BooksOpen(split);
      RanNone(start, moves);
      while |rest| != 0
        invariant Valid() && CarriedTo(start, moves, done, View())
        invariant Booked(Books(rest, batch, count, done, batches), split) && TightSoFar(batches, batch, split)
        invariant sent == old(sent) + |batches| && Answered(accepts, old(sent), sent, true)
        decreases |rest|
      {
        ghost var now := sent;
        var c := AnyOf(rest);
        ok, batch, count, done, batches := TakeChannel(c, batch, count, split, rest, start, done, batches);
        AnsweredOn(accepts, old(sent), now, sent, ok);
        if !ok {
          return;
        }
        rest := rest - {c};
      }
      ghost var now := sent;
      ok, done, batches := UpdateLast(batch, count, split, start, moves, done, batches);
      AnsweredOn(accepts, old(sent), now, sent, ok);
    }

    /** One more channel is put into the batch, if its operations are supported. */
    method TakeChannel(
      c: Name, batch: seq<Name>, count: int, per: map<Name, seq<Op>>,
      ghost rest: set<Name>, ghost start: Store, ghost done: set<Name>, ghost batches: seq<seq<Name>>)
      returns (ok: bool, batch': seq<Name>, count': int, ghost done': set<Name>, ghost batches': seq<seq<Name>>)
      requires Valid() && c in rest
      requires CarriedTo(start, Moves(per), done, View()) && Booked(Books(rest, batch, count, done, batches), per)
      requires TightSoFar(batches, batch, per)
      modifies this
      ensures Valid() && CarriedTo(start, Moves(per), done', View())
      ensures ok ==>
        Booked(Books(rest - {c}, batch', count', done', batches'), per) && TightSoFar(batches', batch', per)
      ensures !ok ==> Ended(batches', per, false, done')
      ensures sent - old(sent) == |batches'| - |batches| <= 1 && Answered(accepts, old(sent), sent, ok)
    {
      ok, batch', count', done', batches' := true, batch, count, done, batches;
      if SanityCheck(per[c]) {
        SaneIsSupported(per[c]);
        ok, batch', count', done', batches' := MakeRoom(|per[c]|, batch, count, per, rest, start, done, batches);
        RoomIsNeeded(batches, batch, batches', batch', per, c);
        if ok {
          BookTaken(Books(rest, batch', count', done', batches'), per, c);
          batch', count' := batch' + [c], count' + |per[c]|;
        }
      } else {
        BookSkipped(Books(rest, batch, count, done, batches), per, c);
      }
    }

    /** A batch with no room for `n` more operations is carried out. */
    method MakeRoom(
      n: nat, batch: seq<Name>, count: int, per: map<Name, seq<Op>>,
      ghost rest: set<Name>, ghost start: Store, ghost done: set<Name>, ghost batches: seq<seq<Name>>)
      returns (ok: bool, batch': seq<Name>, count': int, ghost done': set<Name>, ghost batches': seq<seq<Name>>)
      requires Valid() && n <= MAX_OPERATIONS_PER_TXN
      requires CarriedTo(start, Moves(per), done, View()) && Booked(Books(rest, batch, count, done, batches), per)
      modifies this
      ensures Valid() && CarriedTo(start, Moves(per), done', View()) && AreBatches(batches', per)
      ensures ok ==> Booked(Books(rest, batch', count', done', batches'), per) && count' + n <= MAX_OPERATIONS_PER_TXN
      ensures !ok ==> |batches'| > 0 && CarriedOut(batches', |batches'| - 1, done')
      ensures forall c :: c in done' ==> c in per && SanityCheck(per[c])
      ensures !ok ==> Missed(per, done')
      ensures
        if count + n > MAX_OPERATIONS_PER_TXN then batches' == batches + [batch] && batch' == []
        else batches' == batches && batch' == batch
      ensures sent - old(sent) == |batches'| - |batches| && Answered(accepts, old(sent), sent, ok)
    {
      ok, batch', count', done', batches' := true, batch, count, done, batches;
      if count + n > MAX_OPERATIONS_PER_TXN {
        RoomMade(Books(rest, batch, count, done, batches), per);
        ok := UpdateMeta(batch, per, start, Moves(per), done);
        batches', done' := batches + [batch], if ok then done + Members(batch) else done;
        batch', count' := [], 0;
      }
    }

    /** What is left of the operations, if anything. */
    method UpdateLast(
      batch: seq<Name>, count: int, per: map<Name, seq<Op>>,
      ghost start: Store, ghost moves: map<Name, Move>, ghost done: set<Name>, ghost batches: seq<seq<Name>>)
      returns (ok: bool, ghost done': set<Name>, ghost batches': seq<seq<Name>>)
      requires Valid() && moves == Moves(per)
      requires CarriedTo(start, moves, done, View()) && Booked(Books({}, batch, count, done, batches), per)
      requires TightSoFar(batches, batch, per)
      modifies this
      ensures Valid() && CarriedTo(start, moves, done', View())
      ensures Ended(batches', per, ok, done')
      ensures sent - old(sent) == |batches'| - |batches| <= 1 && Answered(accepts, old(sent), sent, ok)
    {
      ghost var books := Books({}, batch, count, done, batches);
      if count == 0 {
        NothingLeft(books, per);
        return true, done, batches;
      }
      ok := UpdateMeta(batch, per, start, moves, done);
      LastClosed(books, per);
      batches', done' := batches + [batch], if ok then done + Members(batch) else done;
    }
  }
}
