/** What one channel's operations do to the channel store, in memory and in the key-value store, and what a whole set of
    them does, in whatever order the channels are taken. */
module ChannelMoves {
  import opened ChannelKeys
  import opened Orders
  import opened Wrappers

  type Name = string

  const BUFFER: NodeID := MIN_INT64

  datatype ChannelState = Standby | ToWatch | Watching | Watched | ToRelease | Releasing | Legacy

  /** A channel as the store holds it. */
  datatype Channel = Channel(owner: NodeID, state: ChannelState)

  datatype WatchState =
    | InfoToWatch | InfoToRelease | WatchSuccess | WatchFailure | ReleaseSuccess | ReleaseFailure | OtherWatchState

  /** The stored watch info: the name of the channel it is about, and what is asked of its node. */
  datatype WatchInfo = WatchInfo(name: Name, state: WatchState)

  /** A channel on a node. */
  datatype Key = Key(node: NodeID, name: Name)

  /** The registered nodes, the channels they hold, and the key-value store. */
  datatype Store = Store(nodes: set<NodeID>, cells: map<Key, Channel>, kv: map<Key, WatchInfo>)

  function At(s: Store, k: Key): Option<Channel> {
    if k in s.cells then Some(s.cells[k]) else None
  }

  function KvAt(s: Store, k: Key): Option<WatchInfo> {
    if k in s.kv then Some(s.kv[k]) else None
  }

  // ---------------------------------------------------------------- operations on one channel

  datatype OpType = Add | Delete | Watch | Release

  datatype Op = Op(kind: OpType, node: NodeID, info: WatchInfo)

  /** What the operations on one channel amount to. */
  datatype Move =
    | Transfer(source: NodeID, target: NodeID, info: WatchInfo)
    | Start(node: NodeID, info: WatchInfo)
    | Stop(node: NodeID, info: WatchInfo)
    | Drop(node: NodeID)
    | Unsupported

  /** A delete with a watch, in either order; or one delete, watch or release alone. */
  function MoveOf(ops: seq<Op>): Move {
    if |ops| == 2 then
      if ops[0].kind == Delete && ops[1].kind == Watch then Transfer(ops[0].node, ops[1].node, ops[1].info)
      else if ops[1].kind == Delete && ops[0].kind == Watch then Transfer(ops[1].node, ops[0].node, ops[0].info)
      else Unsupported
    else if |ops| == 1 then
      match ops[0].kind
      case Delete => Drop(ops[0].node)
      case Watch => Start(ops[0].node, ops[0].info)
      case Release => Stop(ops[0].node, ops[0].info)
      case Add => Unsupported
    else Unsupported
  }

  /** The state of a channel that has just come to a node. */
  function Landing(node: NodeID): ChannelState {
    if node == BUFFER then Standby else ToWatch
  }

  /** A transfer takes place in memory only from a registered node; if that does not hold the channel, the target's own
      one is only marked anew. */
  predicate Leaves(s: Store, m: Move, name: Name)
    requires m.Transfer?
  {
    m.source in s.nodes && Key(m.source, name) in s.cells
  }

  /** What memory holds at `k` after the move of its channel. */
  function CellAfter(s: Store, m: Move, k: Key): Option<Channel> {
    match m
    case Transfer(source, target, _) =>
      if source !in s.nodes then At(s, k)
      else if Leaves(s, m, k.name) && k.node == source then None
      else if k.node == target && (Leaves(s, m, k.name) || k in s.cells) then Some(Channel(target, Landing(target)))
      else At(s, k)
    case Start(node, _) =>
      if k.node != node then At(s, k)
      else if k in s.cells then Some(s.cells[k].(state := ToWatch))
      else Some(Channel(node, Landing(node)))
    case Stop(node, _) =>
      if k.node == node && k in s.cells then Some(s.cells[k].(state := ToRelease)) else At(s, k)
    case Drop(node) =>
      if k.node == node && node != BUFFER then None else At(s, k)
    case Unsupported => At(s, k)
  }

  /** What the key-value store holds at `k` after the move of its channel. */
  function KvAfter(s: Store, m: Move, k: Key): Option<WatchInfo> {
    match m
    case Transfer(source, target, info) =>
      if k.node == source then None else if k.node == target then Some(info) else KvAt(s, k)
    case Start(node, info) => if k.node == node then Some(info) else KvAt(s, k)
    case Stop(node, info) => if k.node == node then Some(info) else KvAt(s, k)
    case Drop(node) => if k.node == node then None else KvAt(s, k)
    case Unsupported => KvAt(s, k)
  }

  /** Whether the move registers a node. */
  predicate Registers(s: Store, m: Move, name: Name, node: NodeID) {
    match m
    case Transfer(_, target, _) => node == target && Leaves(s, m, name)
    case Start(n, _) => node == n && Key(n, name) !in s.cells
    case _ => false
  }

  // ---------------------------------------------------------------- many channels

  /** Memory after the moves of the channels in `done`, each as if it were the only one. */
  ghost predicate MemoryApplied(s: Store, moves: map<Name, Move>, done: set<Name>, t: Store) {
    && (forall c :: c in done ==> c in moves)
    && (forall k :: At(t, k) == if k.name in done then CellAfter(s, moves[k.name], k) else At(s, k))
    && (forall n :: n in t.nodes <==> n in s.nodes || exists c :: c in done && Registers(s, moves[c], c, n))
  }

  /** The key-value store after the moves of the channels in `done`. */
  ghost predicate KvApplied(s: Store, moves: map<Name, Move>, done: set<Name>, t: Store) {
    && (forall c :: c in done ==> c in moves)
    && (forall k :: KvAt(t, k) == if k.name in done then KvAfter(s, moves[k.name], k) else KvAt(s, k))
  }

  ghost predicate IsApplied(s: Store, moves: map<Name, Move>, done: set<Name>, t: Store) {
    MemoryApplied(s, moves, done, t) && KvApplied(s, moves, done, t)
  }

  // ---------------------------------------------------------------- one channel after the other

  /** `u` is memory `t` after one more move. */
  ghost predicate OneMoved(t: Store, m: Move, c: Name, u: Store) {
    && (forall k :: At(u, k) == if k.name == c then CellAfter(t, m, k) else At(t, k))
    && (forall n :: n in u.nodes <==> n in t.nodes || Registers(t, m, c, n))
  }

  /** Channels are only held by registered nodes. */
  ghost predicate HoldersRegistered(s: Store) {
    forall k :: k in s.cells ==> k.node in s.nodes
  }

  /** The transfer of `c` is from an unregistered node, which `d` registers, and would mark its target's channel
      anew. */
  ghost predicate Interferes(s: Store, moves: map<Name, Move>, c: Name, d: Name) {
    && c in moves && d in moves && c != d
    && moves[c].Transfer? && moves[c].source !in s.nodes
    && Registers(s, moves[d], d, moves[c].source)
    && Key(moves[c].target, c) in s.cells
    && s.cells[Key(moves[c].target, c)] != Channel(moves[c].target, Landing(moves[c].target))
  }

  ghost predicate NoInterference(s: Store, moves: map<Name, Move>) {
    forall c, d :: !Interferes(s, moves, c, d)
  }

  lemma KnownSourcesDoNotInterfere(s: Store, moves: map<Name, Move>)
    requires forall c :: c in moves && moves[c].Transfer? ==> moves[c].source in s.nodes
    ensures NoInterference(s, moves)
  {
  }

  /** A move does to a channel what it would have done before the others' moves. */
  lemma MoveUnaffected(s: Store, moves: map<Name, Move>, done: set<Name>, t: Store, c: Name, k: Key)
    requires HoldersRegistered(s) && NoInterference(s, moves)
    requires MemoryApplied(s, moves, done, t) && c in moves && c !in done && k.name == c
    ensures CellAfter(t, moves[c], k) == CellAfter(s, moves[c], k)
    ensures forall n :: Registers(t, moves[c], c, n) == Registers(s, moves[c], c, n)
  {
    var m := moves[c];
    assert At(t, k) == At(s, k);
    match m {
      case Transfer(source, target, _) =>
        assert At(t, Key(source, c)) == At(s, Key(source, c));
        assert At(t, Key(target, c)) == At(s, Key(target, c));
        if source !in s.nodes && source in t.nodes {
          var d :| d in done && Registers(s, moves[d], d, source);
          assert !Interferes(s, moves, c, d);
        }
      case Start(node, _) =>
        assert At(t, Key(node, c)) == At(s, Key(node, c));
      case _ =>
    }
  }

  lemma MemoryNext(s: Store, moves: map<Name, Move>, done: set<Name>, t: Store, c: Name, u: Store)
    requires HoldersRegistered(s) && NoInterference(s, moves)
    requires MemoryApplied(s, moves, done, t) && c in moves && c !in done && OneMoved(t, moves[c], c, u)
    ensures MemoryApplied(s, moves, done + {c}, u)
  {
    forall k: Key | k.name == c
      ensures CellAfter(t, moves[c], k) == CellAfter(s, moves[c], k)
    {
      MoveUnaffected(s, moves, done, t, c, k);
    }
    MoveUnaffected(s, moves, done, t, c, Key(0, c));
    forall n: NodeID
      ensures n in u.nodes <==> n in s.nodes || exists d :: d in done + {c} && Registers(s, moves[d], d, n)
    {
      assert c in done + {c};
      if d :| d in done && Registers(s, moves[d], d, n) {
        assert d in done + {c};
      }
    }
  }

  // ---------------------------------------------------------------- every order

  ghost predicate SameMemory(t: Store, u: Store) {
    t.nodes == u.nodes && t.cells == u.cells
  }

  /** The moves of these channels, one after the other, take memory through these states. */
  ghost predicate Passes(moves: map<Name, Move>, order: seq<Name>, states: seq<Store>) {
    && |states| == |order| + 1
    && forall i :: 0 <= i < |order| ==>
         order[i] in moves && OneMoved(states[i], moves[order[i]], order[i], states[i + 1])
  }

  /** Memory after the moves of the channels in `done`, one after the other in this order. */
  ghost predicate RanIn(
    s: Store, moves: map<Name, Move>, done: set<Name>, t: Store, order: seq<Name>, states: seq<Store>)
  {
    && Enumerates(order, done)
    && Passes(moves, order, states)
    && SameMemory(states[0], s) && SameMemory(states[|order|], t)
  }

  ghost predicate Ran(s: Store, moves: map<Name, Move>, done: set<Name>, t: Store) {
    exists order, states :: RanIn(s, moves, done, t, order, states)
  }

  lemma RanNone(s: Store, moves: map<Name, Move>)
    ensures Ran(s, moves, {}, s)
  {
    assert RanIn(s, moves, {}, s, [], [s]);
  }

  lemma PassesOn(moves: map<Name, Move>, order: seq<Name>, states: seq<Store>, t: Store, c: Name, u: Store)
    requires Passes(moves, order, states) && SameMemory(states[|order|], t)
    requires c in moves && OneMoved(t, moves[c], c, u)
    ensures Passes(moves, order + [c], states + [u])
  {
    var last, m := states[|order|], moves[c];
    assert forall k :: At(last, k) == At(t, k) && CellAfter(last, m, k) == CellAfter(t, m, k);
    assert forall n :: Registers(last, m, c, n) == Registers(t, m, c, n);
  }

  lemma RanNext(s: Store, moves: map<Name, Move>, done: set<Name>, t: Store, c: Name, u: Store)
    requires Ran(s, moves, done, t) && c in moves && c !in done && OneMoved(t, moves[c], c, u)
    ensures Ran(s, moves, done + {c}, u)
  {
    var order, states :| RanIn(s, moves, done, t, order, states);
    PassesOn(moves, order, states, t, c, u);
    assert Enumerates(order + [c], done + {c});
    assert RanIn(s, moves, done + {c}, u, order + [c], states + [u]);
  }

  /** Without interference, every order does what each move would do alone. */
  lemma {:induction false} PassesApply(s: Store, moves: map<Name, Move>, order: seq<Name>, states: seq<Store>, n: nat)
    requires HoldersRegistered(s) && NoInterference(s, moves)
    requires Passes(moves, order, states) && SameMemory(states[0], s) && n <= |order|
    requires forall i, j :: 0 <= i < j < |order| ==> order[i] != order[j]
    ensures MemoryApplied(s, moves, Members(order[..n]), states[n])
  {
    if n == 0 {
      assert forall k :: At(states[0], k) == At(s, k);
    } else {
      var m := n - 1;
      PassesApply(s, moves, order, states, m);
      assert order[m] in moves && OneMoved(states[m], moves[order[m]], order[m], states[m + 1]);
      assert order[m] !in Members(order[..m]);
      MemoryNext(s, moves, Members(order[..m]), states[m], order[m], states[n]);
      MembersNext(order, m);
    }
  }

  lemma RanApplies(s: Store, moves: map<Name, Move>, done: set<Name>, t: Store)
    requires HoldersRegistered(s) && NoInterference(s, moves) && Ran(s, moves, done, t)
    ensures MemoryApplied(s, moves, done, t)
  {
    var order, states :| RanIn(s, moves, done, t, order, states);
    PassesApply(s, moves, order, states, |order|);
    assert order[..|order|] == order && Members(order) == done;
    assert forall k :: At(states[|order|], k) == At(t, k);
  }

  /** Memory and the key-value store after the moves of the channels in `done`, taken in some order. */
  ghost predicate CarriedTo(s: Store, moves: map<Name, Move>, done: set<Name>, t: Store) {
    Ran(s, moves, done, t) && KvApplied(s, moves, done, t)
  }

  lemma CarriedApplies(s: Store, moves: map<Name, Move>, done: set<Name>, t: Store)
    requires HoldersRegistered(s) && NoInterference(s, moves) && CarriedTo(s, moves, done, t)
    ensures IsApplied(s, moves, done, t)
  {
    RanApplies(s, moves, done, t);
  }

  lemma KvSame(s: Store, moves: map<Name, Move>, done: set<Name>, t: Store, u: Store)
    requires KvApplied(s, moves, done, t) && u.kv == t.kv
    ensures KvApplied(s, moves, done, u)
  {
    assert forall k :: KvAt(u, k) == KvAt(t, k);
  }

  lemma RanSame(s: Store, moves: map<Name, Move>, done: set<Name>, t: Store, u: Store)
    requires Ran(s, moves, done, t) && SameMemory(t, u)
    ensures Ran(s, moves, done, u)
  {
    var order, states :| RanIn(s, moves, done, t, order, states);
    assert RanIn(s, moves, done, u, order, states);
  }

  /** Whatever the order in which the channels are taken, memory ends up the same. */
  ghost predicate OrderIndependent(s: Store, moves: map<Name, Move>) {
    forall t, u :: Ran(s, moves, moves.Keys, t) && Ran(s, moves, moves.Keys, u) ==> SameMemory(t, u)
  }

  lemma MemoryIsUnique(s: Store, moves: map<Name, Move>, done: set<Name>, t: Store, u: Store)
    requires MemoryApplied(s, moves, done, t) && MemoryApplied(s, moves, done, u)
    ensures SameMemory(t, u)
  {
    assert t.nodes == u.nodes by {
      assert forall n :: n in t.nodes <==> n in u.nodes;
    }
    forall k: Key ensures k in t.cells <==> k in u.cells {
      assert At(t, k) == At(u, k);
    }
    forall k | k in t.cells ensures t.cells[k] == u.cells[k] {
      assert At(t, k) == At(u, k);
    }
  }

  /** Which channels have been carried out determines the store. */
  lemma AppliedIsUnique(s: Store, moves: map<Name, Move>, done: set<Name>, t: Store, u: Store)
    requires IsApplied(s, moves, done, t) && IsApplied(s, moves, done, u)
    ensures t == u
  {
    MemoryIsUnique(s, moves, done, t, u);
    forall k: Key ensures k in t.kv <==> k in u.kv {
      assert KvAt(t, k) == KvAt(u, k);
    }
    forall k | k in t.kv ensures t.kv[k] == u.kv[k] {
      assert KvAt(t, k) == KvAt(u, k);
    }
  }

  /** The keys a move may put a channel at. */
  function Landings(m: Move, c: Name): set<Key> {
    match m
    case Transfer(_, target, _) => {Key(target, c)}
    case Start(node, _) => {Key(node, c)}
    case _ => {}
  }

  ghost function CellThen(t: Store, m: Move, c: Name, k: Key): Option<Channel> {
    if k.name == c then CellAfter(t, m, k) else At(t, k)
  }

  /** A move can always be made. */
  ghost function AfterMove(t: Store, m: Move, c: Name): (u: Store)
    ensures OneMoved(t, m, c, u)
  {
    var cells := map k | k in t.cells.Keys + Landings(m, c) && CellThen(t, m, c, k).Some? :: CellThen(t, m, c, k).value;
    var u := Store(t.nodes + (set k | k in Landings(m, c) && Registers(t, m, c, k.node) :: k.node), cells, t.kv);
    assert forall k :: At(u, k) == CellThen(t, m, c, k);
    assert forall n :: Registers(t, m, c, n) ==> Key(n, c) in Landings(m, c);
    u
  }

  lemma {:induction false} PassExists(s: Store, moves: map<Name, Move>, order: seq<Name>) returns (states: seq<Store>)
    requires forall i :: 0 <= i < |order| ==> order[i] in moves
    ensures Passes(moves, order, states) && states[0] == s
  {
    if order == [] {
      states := [s];
    } else {
      var front, c := order[..|order| - 1], order[|order| - 1];
      var before := PassExists(s, moves, front);
      var t := before[|front|];
      PassesOn(moves, front, before, t, c, AfterMove(t, moves[c], c));
      assert order == front + [c];
      states := before + [AfterMove(t, moves[c], c)];
    }
  }

  /** While a channel is not taken, its cells stay. */
  lemma {:induction false} NotTaken(
    moves: map<Name, Move>, order: seq<Name>, states: seq<Store>, i: nat, j: nat, k: Key)
    requires Passes(moves, order, states) && i <= j <= |order|
    requires forall x :: i <= x < j ==> order[x] != k.name
    ensures At(states[j], k) == At(states[i], k)
    decreases j
  {
    if i == j {
    } else {
      NotTaken(moves, order, states, i, j - 1, k);
      assert OneMoved(states[j - 1], moves[order[j - 1]], order[j - 1], states[j]);
    }
  }

  /** Some order in which all channels are taken, these first. */
  lemma OrderFrom(first: seq<Name>, all: set<Name>) returns (order: seq<Name>)
    requires Enumerates(first, Members(first)) && Members(first) <= all
    ensures Enumerates(order, all) && first <= order
  {
    var rest := EnumerationExists(all - Members(first));
    order := first + rest;
    forall x | x in all ensures x in order {
      assert x in first || x in rest;
    }
    forall i, j | 0 <= i < j < |order| ensures order[i] != order[j] {
      assert i < |first| ==> order[i] == first[i];
      assert j >= |first| ==> order[j] == rest[j - |first|];
    }
  }

  /** Taken before the other, the interfering transfer does nothing to its target's channel. */
  lemma TakenFirst(s: Store, moves: map<Name, Move>, c: Name, d: Name) returns (t: Store)
    requires Interferes(s, moves, c, d)
    ensures Ran(s, moves, moves.Keys, t)
    ensures At(t, Key(moves[c].target, c)) == At(s, Key(moves[c].target, c))
  {
    var order := OrderFrom([c], moves.Keys);
    var states := PassExists(s, moves, order);
    t := states[|order|];
    assert RanIn(s, moves, moves.Keys, t, order, states);
    assert order[0] == c && OneMoved(states[0], moves[order[0]], order[0], states[1]);
    NotTaken(moves, order, states, 1, |order|, Key(moves[c].target, c));
  }

  /** Taken right after it, the transfer marks that channel anew. */
  lemma TakenSecond(s: Store, moves: map<Name, Move>, c: Name, d: Name) returns (t: Store)
    requires HoldersRegistered(s) && Interferes(s, moves, c, d)
    ensures Ran(s, moves, moves.Keys, t)
    ensures At(t, Key(moves[c].target, c)) == Some(Channel(moves[c].target, Landing(moves[c].target)))
  {
    var k, source := Key(moves[c].target, c), Key(moves[c].source, c);
    var order := OrderFrom([d, c], moves.Keys);
    var states := PassExists(s, moves, order);
    t := states[|order|];
    assert RanIn(s, moves, moves.Keys, t, order, states);
    assert order[0] == d && OneMoved(states[0], moves[order[0]], order[0], states[1]);
    assert order[1] == c && OneMoved(states[1], moves[order[1]], order[1], states[2]);
    assert At(states[1], k) == At(s, k) && At(states[1], source) == At(s, source) == None;
    assert moves[c].source in states[1].nodes;
    NotTaken(moves, order, states, 2, |order|, k);
  }

  /** The order leaves no trace in memory if and only if no two moves interfere. */
  lemma OrderIndependentExactlyWhen(s: Store, moves: map<Name, Move>)
    requires HoldersRegistered(s)
    ensures OrderIndependent(s, moves) <==> NoInterference(s, moves)
  {
    if NoInterference(s, moves) {
      forall t, u | Ran(s, moves, moves.Keys, t) && Ran(s, moves, moves.Keys, u) ensures SameMemory(t, u) {
        RanApplies(s, moves, moves.Keys, t);
        RanApplies(s, moves, moves.Keys, u);
        MemoryIsUnique(s, moves, moves.Keys, t, u);
      }
    } else {
      var c, d :| Interferes(s, moves, c, d);
      var t := TakenFirst(s, moves, c, d);
      var u := TakenSecond(s, moves, c, d);
      assert At(t, Key(moves[c].target, c)) != At(u, Key(moves[c].target, c));
    }
  }

  // Node 2 watches "c"; node 1 is not registered. "c" is to go from 1 to 2, and "d" to start on 1.

  const WATCHED_ON_2 := Store(
    {BUFFER, 2}, map[Key(2, "c") := Channel(2, Watched)], map[Key(2, "c") := WatchInfo("c", WatchSuccess)])
  const FROM_UNREGISTERED := map[
    "c" := Transfer(1, 2, WatchInfo("c", InfoToWatch)), "d" := Move.Start(1, WatchInfo("d", InfoToWatch))]

  /** A good store and two supported moves between which the order shows. */
  lemma OrderCanShow()
    ensures Good(WATCHED_ON_2) && !OrderIndependent(WATCHED_ON_2, FROM_UNREGISTERED)
  {
    assert Interferes(WATCHED_ON_2, FROM_UNREGISTERED, "c", "d");
    OrderIndependentExactlyWhen(WATCHED_ON_2, FROM_UNREGISTERED);
  }

  // ---------------------------------------------------------------- what becomes of a channel

  /** What memory holds of a channel after its operations, whether they fit it or not. A transfer from an unregistered
      node does nothing. From a registered one that does not hold the channel, it marks the target's own, if it has one.
      A delete on the buffer keeps the channel there. */
  lemma MemoryOutcome(s: Store, moves: map<Name, Move>, done: set<Name>, t: Store, c: Name, n: NodeID)
    requires MemoryApplied(s, moves, done, t) && c in done
    ensures
      var k, landed := Key(n, c), Channel(n, if n == BUFFER then Standby else ToWatch);
      match moves[c]
      case Transfer(source, target, _) =>
        var held := Key(source, c) in s.cells;
        if source !in s.nodes then At(t, k) == At(s, k)
        else if held && n == source then k !in t.cells
        else if n == target && (held || k in s.cells) then At(t, k) == Some(landed)
        else At(t, k) == At(s, k)
      case Start(node, _) =>
        if n != node then At(t, k) == At(s, k)
        else At(t, k) == Some(if k in s.cells then Channel(s.cells[k].owner, ToWatch) else landed)
      case Stop(node, _) =>
        At(t, k) == if n == node && k in s.cells then Some(Channel(s.cells[k].owner, ToRelease)) else At(s, k)
      case Drop(node) => if n == node && n != BUFFER then k !in t.cells else At(t, k) == At(s, k)
      case Unsupported => At(t, k) == At(s, k)
  {
    var k := Key(n, c);
    assert At(t, k) == CellAfter(s, moves[c], k);
  }

  /** What the key-value store holds of it: the node deleted from loses it, also if it is the one watched on; else
      a node watched on or released has the operation's own watch info. */
  lemma KvOutcome(s: Store, moves: map<Name, Move>, done: set<Name>, t: Store, c: Name, n: NodeID)
    requires KvApplied(s, moves, done, t) && c in done
    ensures
      var k, m := Key(n, c), moves[c];
      if (m.Transfer? && n == m.source) || (m.Drop? && n == m.node) then k !in t.kv
      else if (m.Transfer? && n == m.target) || ((m.Start? || m.Stop?) && n == m.node) then KvAt(t, k) == Some(m.info)
      else KvAt(t, k) == KvAt(s, k)
  {
    var k := Key(n, c);
    assert KvAt(t, k) == KvAfter(s, moves[c], k);
  }

  /** A node that was not registered before is registered only with a channel. */
  lemma NewNodeHolds(s: Store, moves: map<Name, Move>, done: set<Name>, t: Store, n: NodeID)
    requires MemoryApplied(s, moves, done, t) && n in t.nodes && n !in s.nodes
    ensures exists c :: c in done && Key(n, c) in t.cells
  {
    var c :| c in done && Registers(s, moves[c], c, n);
    assert At(t, Key(n, c)) == CellAfter(s, moves[c], Key(n, c));
  }

  // ---------------------------------------------------------------- what well-formed moves keep

  /** What the callers owe: the operations fit where the channel is. */
  ghost predicate WellFormed(s: Store, c: Name, m: Move) {
    match m
    case Transfer(source, _, info) => source in s.nodes && Key(source, c) in s.cells && info.name == c
    case Start(node, info) => (forall n :: n != node ==> Key(n, c) !in s.cells) && info.name == c
    case Stop(node, info) => Key(node, c) in s.cells && info.name == c
    case Drop(node) => Key(node, c) in s.cells && node != BUFFER
    case Unsupported => false
  }

  /** Memory and the key-value store have the same channels on the same nodes. */
  ghost predicate Agree(s: Store) {
    forall k :: k in s.cells <==> k in s.kv
  }

  /** Every channel is held by one node at most, a registered one, and knows it. */
  ghost predicate SingleOwner(s: Store) {
    && BUFFER in s.nodes
    && (forall k :: k in s.cells ==> k.node in s.nodes && s.cells[k].owner == k.node)
    && (forall k, l :: k in s.cells && l in s.cells && k.name == l.name ==> k == l)
  }

  /** Stored watch infos are about the channel under whose key they are. */
  ghost predicate Labelled(s: Store) {
    forall k :: k in s.kv ==> s.kv[k].name == k.name
  }

  ghost predicate Good(s: Store) {
    Agree(s) && SingleOwner(s) && Labelled(s)
  }

  /** Where a channel is after its operations, and in what state, in memory and in the key-value store. A transfer
      brings it to its target, to be watched there, or on standby in the buffer, and takes it from its source; a
      start on a node that has it marks it to be watched; a stop marks it to be released. Each saves its own watch
      info. A drop, and a transfer to where the channel is already, leave it nowhere. */
  lemma AppliedOutcome(s: Store, moves: map<Name, Move>, done: set<Name>, t: Store, c: Name, n: NodeID)
    requires SingleOwner(s) && Agree(s)
    requires IsApplied(s, moves, done, t) && c in done && WellFormed(s, c, moves[c])
    ensures
      var k := Key(n, c);
      match moves[c]
      case Transfer(source, target, info) =>
        if n == target && source != target then
          At(t, k) == Some(Channel(n, if n == BUFFER then Standby else ToWatch)) && KvAt(t, k) == Some(info)
        else At(t, k) == None && KvAt(t, k) == None
      case Start(node, info) =>
        if n == node then
          && At(t, k) == Some(Channel(n, if n == BUFFER && k !in s.cells then Standby else ToWatch))
          && KvAt(t, k) == Some(info)
        else At(t, k) == None && KvAt(t, k) == None
      case Stop(node, info) =>
        if n == node then At(t, k) == Some(Channel(n, ToRelease)) && KvAt(t, k) == Some(info)
        else At(t, k) == None && KvAt(t, k) == None
      case Drop(_) => At(t, k) == None && KvAt(t, k) == None
      case Unsupported => true
  {
    var k := Key(n, c);
    assert At(t, k) == CellAfter(s, moves[c], k) && KvAt(t, k) == KvAfter(s, moves[c], k);
  }

  /** Channels whose operations have not been carried out are as they were, in both. */
  lemma OthersUntouched(s: Store, moves: map<Name, Move>, done: set<Name>, t: Store, k: Key)
    requires IsApplied(s, moves, done, t) && k.name !in done
    ensures At(t, k) == At(s, k) && KvAt(t, k) == KvAt(s, k)
  {
  }

  lemma MoveKeepsAgree(s: Store, m: Move, k: Key)
    requires Good(s) && WellFormed(s, k.name, m)
    ensures CellAfter(s, m, k).Some? <==> KvAfter(s, m, k).Some?
  {
  }

  lemma AppliedKeepsAgree(s: Store, moves: map<Name, Move>, done: set<Name>, t: Store)
    requires Good(s) && IsApplied(s, moves, done, t) && forall c :: c in done ==> WellFormed(s, c, moves[c])
    ensures Agree(t) && Labelled(t)
  {
    forall k: Key ensures k in t.cells <==> k in t.kv {
      assert At(t, k).Some? <==> k in t.cells;
      assert KvAt(t, k).Some? <==> k in t.kv;
      if k.name in done {
        MoveKeepsAgree(s, moves[k.name], k);
      }
    }
    forall k | k in t.kv ensures t.kv[k].name == k.name {
      assert KvAt(t, k) == Some(t.kv[k]);
      assert k.name in done ==> WellFormed(s, k.name, moves[k.name]);
    }
  }

  /** After a well-formed move, at most one node holds the channel: its target, if it has one. */
  lemma MoveKeepsOwner(s: Store, m: Move, k: Key, l: Key)
    requires Good(s) && WellFormed(s, k.name, m) && k.name == l.name
    requires CellAfter(s, m, k).Some? && CellAfter(s, m, l).Some?
    ensures k == l && CellAfter(s, m, k).value.owner == k.node
    ensures k.node in s.nodes || Registers(s, m, k.name, k.node)
  {
  }

  lemma AppliedKeepsOwner(s: Store, moves: map<Name, Move>, done: set<Name>, t: Store)
    requires Good(s) && IsApplied(s, moves, done, t) && forall c :: c in done ==> WellFormed(s, c, moves[c])
    ensures SingleOwner(t)
  {
    forall k, l | k in t.cells && l in t.cells && k.name == l.name
      ensures k == l && k.node in t.nodes && t.cells[k].owner == k.node
    {
      assert At(t, k) == Some(t.cells[k]) && At(t, l) == Some(t.cells[l]);
      if k.name in done {
        MoveKeepsOwner(s, moves[k.name], k, l);
      }
    }
  }

  /** Whichever channels' moves have been made, memory and the key-value store agree and nothing is held twice. */
  lemma AppliedKeepsGood(s: Store, moves: map<Name, Move>, done: set<Name>, t: Store)
    requires Good(s) && IsApplied(s, moves, done, t) && forall c :: c in done ==> WellFormed(s, c, moves[c])
    ensures Good(t)
  {
    AppliedKeepsAgree(s, moves, done, t);
    AppliedKeepsOwner(s, moves, done, t);
  }
}
