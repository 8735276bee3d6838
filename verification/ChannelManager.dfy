/** What the channel manager does with the store: reload it, look a channel up, and move channels about. */
module ChannelManager {
  import opened ChannelKeys
  import opened ChannelMoves
  import opened ChannelStore
  import opened Orders
  import opened Wrappers

  // ---------------------------------------------------------------- reload

  datatype Entry = Entry(key: string, info: WatchInfo)

  /** The state of a channel read back from its watch info. */
  function StateOf(node: NodeID, info: WatchInfo): ChannelState {
    if node == BUFFER then Standby
    else
      match info.state
      case InfoToWatch => ToWatch
      case InfoToRelease => ToRelease
      case WatchSuccess => Watched
      case _ => Standby
  }

  /** The cell an entry is read into. */
  function CellOf(e: Entry): Option<Key> {
    match ParseNodeKey(e.key)
    case None => None
    case Some(node) => Some(Key(node, e.info.name))
  }

  ghost predicate Named(entries: seq<Entry>, n: nat, k: Key)
    requires n <= |entries|
  {
    exists i :: 0 <= i < n && CellOf(entries[i]) == Some(k)
  }

  ghost predicate ReadFrom(entries: seq<Entry>, n: nat, k: Key, ch: Channel)
    requires n <= |entries|
  {
    exists i :: 0 <= i < n && CellOf(entries[i]) == Some(k) && ch == Channel(k.node, StateOf(k.node, entries[i].info))
  }

  /** A cell that some entry is about holds what one of them says; any other is as it was. */
  ghost predicate IsRead(s: Store, t: Store, entries: seq<Entry>, n: nat, k: Key)
    requires n <= |entries|
  {
    if Named(entries, n, k) then k in t.cells && ReadFrom(entries, n, k, t.cells[k]) else At(t, k) == At(s, k)
  }

  ghost predicate NodeNamed(entries: seq<Entry>, n: nat, node: NodeID)
    requires n <= |entries|
  {
    exists i :: 0 <= i < n && CellOf(entries[i]).Some? && CellOf(entries[i]).value.node == node
  }

  /** The first `n` entries have been read into `s`. */
  ghost predicate Loaded(s: Store, t: Store, entries: seq<Entry>, n: nat)
    requires n <= |entries|
  {
    && (forall i :: 0 <= i < n ==> CellOf(entries[i]).Some?)
    && (forall k :: IsRead(s, t, entries, n, k))
    && (forall node :: node in t.nodes <==> node in s.nodes || NodeNamed(entries, n, node))
    && t.kv == s.kv
  }

  /** The store once one more entry has been read. */
  ghost function Enter(t: Store, e: Entry): Store
    requires CellOf(e).Some?
  {
    var k := CellOf(e).value;
    Store(t.nodes + {k.node}, t.cells[k := Channel(k.node, StateOf(k.node, e.info))], t.kv)
  }

  lemma ReadNext(s: Store, t: Store, entries: seq<Entry>, i: nat, n: nat, l: Key)
    requires i < |entries| && n == i + 1 && IsRead(s, t, entries, i, l) && CellOf(entries[i]).Some?
    ensures IsRead(s, Enter(t, entries[i]), entries, n, l)
  {
  }

  lemma NodeNamedNext(entries: seq<Entry>, i: nat, n: nat, k: Key, node: NodeID)
    requires i < |entries| && n == i + 1 && CellOf(entries[i]) == Some(k)
    ensures NodeNamed(entries, n, node) <==> NodeNamed(entries, i, node) || node == k.node
  {
  }

  lemma LoadNone(s: Store, entries: seq<Entry>)
    ensures Loaded(s, s, entries, 0)
  {
  }

  lemma LoadNext(s: Store, t: Store, entries: seq<Entry>, i: nat, n: nat)
    requires i < |entries| && n == i + 1 && Loaded(s, t, entries, i) && CellOf(entries[i]).Some?
    ensures Loaded(s, Enter(t, entries[i]), entries, n)
  {
    var u := Enter(t, entries[i]);
    forall l ensures IsRead(s, u, entries, n, l) {
      assert IsRead(s, t, entries, i, l);
      ReadNext(s, t, entries, i, n, l);
    }
    forall node ensures node in u.nodes <==> node in s.nodes || NodeNamed(entries, n, node) {
      NodeNamedNext(entries, i, n, CellOf(entries[i]).value, node);
    }
  }

  method ReloadOne(store: StateChannelStore, e: Entry) returns (ok: bool)
    requires store.Valid()
    modifies store`channelsInfo, store`cells
    ensures store.Valid() && (ok <==> CellOf(e).Some?)
    ensures store.View() == if ok then Enter(old(store.View()), e) else old(store.View())
  {
    var node := ParseNodeKey(e.key);
    if node.None? {
      return false;
    }
    store.AddNode(node.value);
    store.AddAssignment(node.value, e.info.name, Channel(node.value, StateOf(node.value, e.info)));
    return true;
  }

  /** Reads the key-value store into memory; a key that cannot be parsed stops it. */
  method Reload(store: StateChannelStore, entries: seq<Entry>) returns (ok: bool)
    requires store.Valid()
    modifies store`channelsInfo, store`cells
    ensures store.Valid()
    ensures ok <==> forall i :: 0 <= i < |entries| ==> CellOf(entries[i]).Some?
    ensures ok ==> Loaded(old(store.View()), store.View(), entries, |entries|)
  {
    ghost var before, t := store.View(), store.View();
    LoadNone(before, entries);
    for i := 0 to |entries|
      invariant store.Valid() && t == store.View() && Loaded(before, t, entries, i)
    {
      ok := ReloadOne(store, entries[i]);
      if !ok {
        return;
      }
      LoadNext(before, t, entries, i, i + 1);
      t := Enter(t, entries[i]);
    }
    return true;
  }

  /** The entries of a key-value store, in any order. */
  ghost predicate AreEntries(entries: seq<Entry>, keys: seq<Key>, prefix: string, kv: map<Key, WatchInfo>) {
    && |keys| == |entries| && Enumerates(keys, kv.Keys) && (forall k :: k in kv ==> IsInt64(k.node))
    && forall i :: 0 <= i < |keys| ==>
         entries[i] == Entry(BuildNodeChannelKey(prefix, keys[i].node, keys[i].name), kv[keys[i]])
  }

  ghost predicate AllReadable(kv: map<Key, WatchInfo>) {
    forall k :: k in kv ==> Readable(k.node, k.name)
  }

  /** All keys can be parsed, so that a reload succeeds, exactly when every name with a slash reads as a key itself. */
  lemma ReloadSucceedsExactlyWhen(entries: seq<Entry>, keys: seq<Key>, prefix: string, kv: map<Key, WatchInfo>)
    requires AreEntries(entries, keys, prefix, kv)
    ensures (forall i :: 0 <= i < |entries| ==> CellOf(entries[i]).Some?)
      <==> (forall k :: k in kv ==> NoSlash(k.name) || ParseNodeKey(k.name).Some?)
  {
    forall i | 0 <= i < |entries|
      ensures CellOf(entries[i]).Some? <==> NoSlash(keys[i].name) || ParseNodeKey(keys[i].name).Some?
    {
      ParseBuiltKey(prefix, keys[i].node, keys[i].name);
    }
    forall k | k in kv ensures exists i :: 0 <= i < |entries| && keys[i] == k {
      assert k in keys;
    }
  }

  /** The cell a stored pair is read into is its own if the name is readable, and nobody's otherwise. */
  lemma ReadInto(s: Store, entries: seq<Entry>, keys: seq<Key>, prefix: string, i: nat)
    requires Good(s) && AreEntries(entries, keys, prefix, s.kv) && i < |entries|
    ensures Readable(keys[i].node, keys[i].name) ==> CellOf(entries[i]) == Some(keys[i])
    ensures !Readable(keys[i].node, keys[i].name) && CellOf(entries[i]).Some? ==> CellOf(entries[i]).value !in s.cells
  {
    ParseBuiltKey(prefix, keys[i].node, keys[i].name);
  }

  lemma ReadableNamed(s: Store, entries: seq<Entry>, keys: seq<Key>, prefix: string, k: Key)
    requires Good(s) && AreEntries(entries, keys, prefix, s.kv) && AllReadable(s.kv)
    ensures Named(entries, |entries|, k) <==> k in s.cells
  {
    forall i | 0 <= i < |entries| ensures CellOf(entries[i]) == Some(keys[i]) {
      ReadInto(s, entries, keys, prefix, i);
    }
    assert k in s.kv ==> k in keys;
  }

  ghost predicate SamePlaces(s: Store, t: Store) {
    forall k :: k in t.cells <==> k in s.cells
  }

  /** A fresh store that has read a good one's key-value pairs back, in whatever order, has the same channels on
      the same nodes exactly when all names are readable; and it is then good itself. */
  lemma ReloadRoundTrip(s: Store, entries: seq<Entry>, keys: seq<Key>, prefix: string, t: Store)
    requires Good(s) && AreEntries(entries, keys, prefix, s.kv)
    requires Loaded(Store({BUFFER}, map[], s.kv), t, entries, |entries|)
    ensures SamePlaces(s, t) <==> AllReadable(s.kv)
    ensures AllReadable(s.kv) ==> Good(t)
  {
    var empty := Store({BUFFER}, map[], s.kv);
    if AllReadable(s.kv) {
      forall k: Key ensures k in t.cells <==> k in s.cells {
        ReadableNamed(s, entries, keys, prefix, k);
        assert IsRead(empty, t, entries, |entries|, k);
      }
      forall k | k in t.cells ensures k.node in t.nodes && t.cells[k].owner == k.node {
        ReadableNamed(s, entries, keys, prefix, k);
        assert IsRead(empty, t, entries, |entries|, k);
        assert NodeNamed(entries, |entries|, k.node);
      }
    } else {
      var k :| k in s.kv && !Readable(k.node, k.name);
      assert k in keys;
      var i :| 0 <= i < |keys| && keys[i] == k;
      ReadInto(s, entries, keys, prefix, i);
      var l := CellOf(entries[i]).value;
      assert Named(entries, |entries|, l) && IsRead(empty, t, entries, |entries|, l);
    }
  }

  /** The state in which a reload leaves a channel, by what its watch info asks of its node; in the buffer it is always
      on standby. */
  lemma ReloadedState(s: Store, entries: seq<Entry>, keys: seq<Key>, prefix: string, t: Store, k: Key)
    requires Good(s) && AreEntries(entries, keys, prefix, s.kv) && AllReadable(s.kv) && k in s.kv
    requires Loaded(Store({BUFFER}, map[], s.kv), t, entries, |entries|)
    ensures
      var asked := s.kv[k].state;
      At(t, k) == Some(Channel(k.node,
        if k.node == BUFFER then Standby
        else if asked == InfoToWatch then ToWatch
        else if asked == InfoToRelease then ToRelease
        else if asked == WatchSuccess then Watched
        else Standby))
  {
    ReadableNamed(s, entries, keys, prefix, k);
    assert IsRead(Store({BUFFER}, map[], s.kv), t, entries, |entries|, k);
    var i :| 0 <= i < |entries| && CellOf(entries[i]) == Some(k)
      && t.cells[k] == Channel(k.node, StateOf(k.node, entries[i].info));
    ReadInto(s, entries, keys, prefix, i);
    assert keys[i] == k;
  }

  /** A restart after an operation finds the channel in the state the operation left it in, if the watch info it saved
      asks for that: to be watched by a watch or transfer, to be released by a release. The exceptions are a release and
      a repeated watch on the buffer, which memory marks although a reload takes everything there for standby. */
  lemma RestartKeepsState(
    s: Store, moves: map<Name, Move>, done: set<Name>, t: Store, c: Name, n: NodeID,
    entries: seq<Entry>, keys: seq<Key>, prefix: string, u: Store)
    requires Good(s) && IsApplied(s, moves, done, t) && c in done
    requires forall d :: d in done ==> WellFormed(s, d, moves[d])
    requires moves[c].Start? || moves[c].Transfer? ==> moves[c].info.state == InfoToWatch
    requires moves[c].Stop? ==> moves[c].info.state == InfoToRelease
    requires AreEntries(entries, keys, prefix, t.kv) && AllReadable(t.kv)
    requires Loaded(Store({BUFFER}, map[], t.kv), u, entries, |entries|)
    ensures At(u, Key(n, c)) == At(t, Key(n, c)) <==>
      !(n == BUFFER && (moves[c].Start? || moves[c].Stop?) && moves[c].node == BUFFER && Key(BUFFER, c) in s.cells)
  {
    AppliedKeepsGood(s, moves, done, t);
    AppliedOutcome(s, moves, done, t, c, n);
    if Key(n, c) in t.kv {
      ReloadedState(t, entries, keys, prefix, u, Key(n, c));
    } else {
      ReloadRoundTrip(t, entries, keys, prefix, u);
    }
  }

  // ---------------------------------------------------------------- operation sets of the manager

  lemma {:induction false} NotMentioned(ops: seq<ChannelOp>, i: nat, j: nat, c: Name)
    requires i < |ops| && j <= |ops[i].channels| && forall k :: 0 <= k < j ==> ops[i].channels[k].name != c
    ensures OpsTo(ops, i, j, c) == OpsTo(ops, i, 0, c)
  {
    if j == 0 {
    } else {
      NotMentioned(ops, i, j - 1, c);
    }
  }

  lemma {:induction false} MentionedOnce(ops: seq<ChannelOp>, i: nat, j: nat, m: nat, c: Name)
    requires i < |ops| && m < j <= |ops[i].channels| && ops[i].channels[m].name == c
    requires forall k :: 0 <= k < j && k != m ==> ops[i].channels[k].name != c
    ensures OpsTo(ops, i, j, c) == OpsTo(ops, i, 0, c) + [Op(ops[i].kind, ops[i].node, ops[i].channels[m].info)]
  {
    if m == j - 1 {
      NotMentioned(ops, i, j - 1, c);
    } else {
      MentionedOnce(ops, i, j - 1, m, c);
    }
  }

  /** Arguments that name each channel once, with a watch info about it. */
  ghost predicate AreArgs(args: seq<ChannelArg>, names: set<Name>, state: WatchState) {
    && (forall i, j :: 0 <= i < j < |args| ==> args[i].name != args[j].name)
    && (forall i :: 0 <= i < |args| ==> args[i].name in names && args[i].info == WatchInfo(args[i].name, state))
    && (forall c :: c in names ==> exists i :: 0 <= i < |args| && args[i].name == c)
  }

  method MakeArgs(order: seq<Name>, state: WatchState, ghost names: set<Name>) returns (args: seq<ChannelArg>)
    requires Enumerates(order, names)
    ensures AreArgs(args, names, state)
  {
    args := [];
    for i := 0 to |order|
      invariant |args| == i && forall k :: 0 <= k < i ==> args[k] == ChannelArg(order[k], WatchInfo(order[k], state))
    {
      args := args + [ChannelArg(order[i], WatchInfo(order[i], state))];
    }
    forall c | c in names ensures exists i :: 0 <= i < |args| && args[i].name == c {
      assert c in order;
      var i :| 0 <= i < |order| && order[i] == c;
      assert args[i].name == c;
    }
  }

  /** One operation about some channels says about each of them just that. */
  lemma {:induction false} OpsOfOne(ops: seq<ChannelOp>, i: nat, names: set<Name>, state: WatchState, c: Name)
    requires i < |ops| && AreArgs(ops[i].channels, names, state)
    ensures OpsTo(ops, i, |ops[i].channels|, c)
      == if c in names then OpsTo(ops, i, 0, c) + [Op(ops[i].kind, ops[i].node, WatchInfo(c, state))]
         else OpsTo(ops, i, 0, c)
  {
    var n := |ops[i].channels|;
    if c in names {
      var m :| 0 <= m < n && ops[i].channels[m].name == c;
      MentionedOnce(ops, i, n, m, c);
    } else {
      NotMentioned(ops, i, n, c);
    }
  }

  lemma OpsOfEach(ops: seq<ChannelOp>, names: set<Name>, state: WatchState, c: Name)
    requires |ops| == 1 && AreArgs(ops[0].channels, names, state)
    ensures OpsTo(ops, 1, 0, c) == if c in names then [Op(ops[0].kind, ops[0].node, WatchInfo(c, state))] else []
  {
    OpsOfOne(ops, 0, names, state, c);
    assert OpsTo(ops, 0, 0, c) == [];
  }

  lemma OpsOfPair(ops: seq<ChannelOp>, names: set<Name>, state: WatchState, c: Name)
    requires |ops| == 2 && AreArgs(ops[0].channels, names, state) && AreArgs(ops[1].channels, names, state)
    ensures OpsTo(ops, 2, 0, c) ==
      if c in names then
        [Op(ops[0].kind, ops[0].node, WatchInfo(c, state)), Op(ops[1].kind, ops[1].node, WatchInfo(c, state))]
      else []
  {
    OpsOfOne(ops, 0, names, state, c);
    OpsOfOne(ops, 1, names, state, c);
    assert OpsTo(ops, 0, 0, c) == [];
    assert OpsTo(ops, 1, 0, c) == OpsTo(ops, 0, |ops[0].channels|, c);
  }

  ghost predicate AllWellFormed(s: Store, per: map<Name, seq<Op>>) {
    forall c :: c in per && SanityCheck(per[c]) ==> WellFormed(s, c, MoveOf(per[c]))
  }

  lemma WellFormedDoNotInterfere(s: Store, per: map<Name, seq<Op>>)
    requires AllWellFormed(s, per)
    ensures NoInterference(s, Moves(per))
  {
  }

  lemma CarriedKeepsGood(s: Store, per: map<Name, seq<Op>>, done: set<Name>, t: Store)
    requires Good(s) && AllWellFormed(s, per) && CarriedTo(s, Moves(per), done, t)
    requires forall c :: c in done ==> c in per && SanityCheck(per[c])
    ensures IsApplied(s, Moves(per), done, t) && Good(t)
  {
    WellFormedDoNotInterfere(s, per);
    CarriedApplies(s, Moves(per), done, t);
    AppliedKeepsGood(s, Moves(per), done, t);
  }

  // ---------------------------------------------------------------- the manager

  datatype Watcher = WatchedBy(node: NodeID) | InBuffer | NotWatched

  /** Transactions were sent, and all went well exactly if none was refused. */
  ghost predicate Sent(store: StateChannelStore, before: nat, ok: bool)
    reads store
  {
    before < store.sent && Answered(store.accepts, before, store.sent, ok)
  }

  class ChannelManagerImpl {
    const store: StateChannelStore
    var legacyNodes: set<NodeID>

    ghost predicate Valid()
      reads this, store
    {
      store.Valid() && Good(store.View())
    }

    constructor (store: StateChannelStore)
      requires store.Valid() && Good(store.View())
      ensures this.store == store && Valid() && legacyNodes == {}
    {
      this.store, legacyNodes := store, {};
    }

    /** Well-formed operations leave a good store behind, however many of their batches get through. */
    method Execute(ops: seq<ChannelOp>, filled: bool)
      returns (ok: bool, ghost per: map<Name, seq<Op>>, ghost done: set<Name>)
      requires Valid() && forall per :: IsSplit(per, ops) ==> AllWellFormed(store.View(), per)
      modifies store
      ensures Valid()
      ensures !filled ==> !ok && store.View() == old(store.View()) && store.sent == old(store.sent)
      ensures filled ==> IsSplit(per, ops) && IsApplied(old(store.View()), Moves(per), done, store.View())
      ensures filled ==> (forall c :: c in done ==> c in per && SanityCheck(per[c])) && (ok <==> !Missed(per, done))
      ensures filled ==> Answered(store.accepts, old(store.sent), store.sent, ok)
      ensures filled && (exists c :: c in per && SanityCheck(per[c])) ==> store.sent > old(store.sent)
    {
      if !filled {
        return false, map[], {};
      }
      ghost var s := store.View();
      ghost var batches;
      ok, per, done, batches := store.Update(ops);
      CarriedKeepsGood(s, per, done, store.View());
    }

    /** A new channel waits in the buffer. */
    method AddToBuffer(name: Name, filled: bool) returns (ok: bool)
      requires Valid() && forall k :: k in store.cells ==> k.name != name
      modifies store
      ensures Valid() && IsAdded(old(store.View()), store.View(), name, ok)
      ensures if filled then Sent(store, old(store.sent), ok) else !ok && store.sent == old(store.sent)
    {
      var op := ChannelOp(OpType.Watch, BUFFER, [ChannelArg(name, WatchInfo(name, InfoToWatch))]);
      ok := ExecuteOne(op, name, InfoToWatch, filled);
    }

    /** Adds a new channel to the buffer and carries out what the assign policy makes of that: `added` if the
        channel got there, `without` if it did not. Errors are not reported, so the caller learns nothing; but
        whatever fails, the store is good. */
    method Watch(name: Name, filled: bool, added: seq<ChannelOp>, without: seq<ChannelOp>, assignFilled: bool)
      returns (ghost ok: bool, ghost mid: Store, ghost per: map<Name, seq<Op>>, ghost done: set<Name>)
      requires Valid() && forall k :: k in store.cells ==> k.name != name
      requires FitAfter(store.View(), name, true, added) && FitAfter(store.View(), name, false, without)
      modifies store
      ensures Valid()
      ensures Good(mid) && IsAdded(old(store.View()), mid, name, ok)
      ensures IsApplied(mid, Moves(per), done, store.View())
      ensures forall c :: c in done ==> c in per && SanityCheck(per[c])
      ensures done != {} ==> IsSplit(per, if ok then added else without)
      ensures !filled ==> !ok
      ensures (forall n :: n >= old(store.sent) ==> store.accepts(n)) ==>
        && (filled ==> ok)
        && (assignFilled && (if ok then added else without) != [] ==>
              IsSplit(per, if ok then added else without) && !Missed(per, done))
    {
      var got := AddToBuffer(name, filled);
      ok, mid, per, done := got, store.View(), map[], {};
      var updates := if got then added else without;
      if |updates| == 0 {
        return;
      }
      assert forall per :: IsSplit(per, updates) ==> AllWellFormed(store.View(), per);
      var taken;
      ghost var split, made;
      taken, split, made := Execute(updates, assignFilled);
      if assignFilled {
        per, done := split, made;
      }
    }

    /** Marks a channel for release by its node; one in the buffer is released already, an unknown one is an error. */
    method Release(node: NodeID, name: Name, filled: bool) returns (ok: bool)
      requires Valid()
      modifies store
      ensures Valid()
      ensures node == BUFFER ==> ok && store.View() == old(store.View())
      ensures node != BUFFER && Key(node, name) !in old(store.cells) ==> !ok
      ensures node != BUFFER ==>
        var cell := if ok then Some(Channel(node, ToRelease)) else At(old(store.View()), Key(node, name));
        OnlyAt(old(store.View()), store.View(), Key(node, name), cell)
      ensures node != BUFFER && Key(node, name) in old(store.cells) ==>
        if filled then Sent(store, old(store.sent), ok) else !ok
    {
      if node == BUFFER {
        return true;
      }
      var ch := store.GetChannel(node, name);
      if ch.None? {
        return false;
      }
      var op := ChannelOp(OpType.Release, node, [ChannelArg(name, WatchInfo(name, InfoToRelease))]);
      ok := ExecuteOne(op, name, InfoToRelease, filled);
    }

    /** One operation on one channel, made or not. */
    method ExecuteOne(op: ChannelOp, name: Name, state: WatchState, filled: bool) returns (ok: bool)
      requires Valid() && op.channels == [ChannelArg(name, WatchInfo(name, state))] && op.kind != Add
      requires WellFormed(store.View(), name, MoveOf(OnlyOp(op, name, state)))
      modifies store
      ensures Valid()
      ensures ok ==> OneMoved(old(store.View()), MoveOf(OnlyOp(op, name, state)), name, store.View())
      ensures !ok ==> store.cells == old(store.cells)
      ensures if filled then Sent(store, old(store.sent), ok) else !ok && store.sent == old(store.sent)
    {
      ghost var s := store.View();
      OneFits(s, op, name, state);
      ghost var per, done;
      ok, per, done := Execute([op], filled);
      if filled {
        OneExecuted(s, op, name, state, per, done, store.View(), ok);
        SplitOfOne([op], name, state, per);
        assert name in per && SanityCheck(per[name]);
      }
    }

    /** The node that watches a channel, if one does. */
    method FindWatcher(name: Name, order: seq<NodeID>) returns (w: Watcher)
      requires Valid() && Enumerates(order, store.View().nodes - {BUFFER})
      ensures forall n :: n != BUFFER && Key(n, name) in store.cells ==> w == WatchedBy(n)
      ensures Key(BUFFER, name) in store.cells ==> w == InBuffer
      ensures (forall n :: Key(n, name) !in store.cells) ==> w == NotWatched
    {
      for i := 0 to |order|
        invariant forall j :: 0 <= j < i ==> Key(order[j], name) !in store.cells
      {
        var ch := store.GetChannel(order[i], name);
        if ch.Some? {
          assert forall n :: Key(n, name) in store.cells ==> Key(n, name) == Key(order[i], name);
          return WatchedBy(order[i]);
        }
      }
      forall n | n in store.View().nodes - {BUFFER} ensures Key(n, name) !in store.cells {
        assert n in order;
      }
      var ch := store.GetChannel(BUFFER, name);
      return if ch.Some? then InBuffer else NotWatched;
    }

    method MoveToBuffer(node: NodeID, order: seq<Name>, order': seq<Name>, filled: bool) returns (ok: bool)
      requires Valid()
      requires Enumerates(order, NamesOn(store.View(), node)) && Enumerates(order', NamesOn(store.View(), node))
      modifies store
      ensures Valid()
      ensures Moved(old(store.View()), store.View(), node)
      ensures ok ==> forall k :: k in store.cells ==> k.node != node
      ensures filled && |order| != 0 ==> Sent(store, old(store.sent), ok)
      ensures !filled ==> !ok && store.View() == old(store.View())
    {
      ghost var s, names := store.View(), NamesOn(store.View(), node);
      var gone := MakeArgs(order, InfoToWatch, names);
      var kept := MakeArgs(order', InfoToWatch, names);
      var ops := [ChannelOp(Delete, node, gone), ChannelOp(OpType.Watch, BUFFER, kept)];
      forall per | IsSplit(per, ops) ensures AllWellFormed(s, per) && AllToBuffer(per, node, names) {
        MovesToBuffer(s, ops, node, names, per);
      }
      ghost var per, done;
      ok, per, done := Execute(ops, filled);
      if filled {
        assert |order| != 0 ==> order[0] in per;
        BufferedOrKept(s, per, node, names, done, store.View());
        if ok {
          AllBuffered(s, per, node, names, done, store.View());
        }
      } else {
        NotMoved(s, node);
      }
    }

    /** Moves everything a node holds to the buffer and forgets the node. If a transaction fails on the way, every
        channel is still in one place: on the node or in the buffer. The buffer itself is not forgotten, but what
        it holds is. */
    method DeleteNode(node: NodeID, order: seq<Name>, order': seq<Name>, filled: bool) returns (ok: bool)
      requires Valid()
      requires Enumerates(order, NamesOn(store.View(), node)) && Enumerates(order', NamesOn(store.View(), node))
      modifies this, store
      ensures Valid() && legacyNodes == old(legacyNodes) - {node}
      ensures Moved(old(store.View()), store.View(), node)
      ensures ok ==> forall k :: k in store.cells ==> k.node != node
      ensures ok && node != BUFFER ==> node !in store.View().nodes && AllStandby(old(store.View()), store.View(), node)
      ensures
        if |order| == 0 then ok
        else if filled then Sent(store, old(store.sent), ok)
        else !ok && store.View() == old(store.View())
    {
      legacyNodes := legacyNodes - {node};
      if |order| == 0 {
        NothingOn(store.View(), node, order);
        NotMoved(store.View(), node);
        ok := true;
      } else {
        ok := MoveToBuffer(node, order, order', filled);
      }
      if ok && node != BUFFER {
        Forgotten(old(store.View()), store.View(), node);
        store.RemoveNode(node);
      }
    }
  }

  lemma Forgotten(s: Store, t: Store, node: NodeID)
    requires Good(t) && Moved(s, t, node) && node != BUFFER && forall k :: k in t.cells ==> k.node != node
    ensures Good(t.(nodes := t.nodes - {node})) && Moved(s, t.(nodes := t.nodes - {node}), node)
    ensures AllStandby(s, t.(nodes := t.nodes - {node}), node)
  {
  }

  /** Everything the node held is in the buffer, on standby. */
  ghost predicate AllStandby(s: Store, t: Store, node: NodeID) {
    forall c :: c in NamesOn(s, node) ==> At(t, Key(BUFFER, c)) == Some(Channel(BUFFER, Standby))
  }

  /** What a node held is there or in the buffer, what the buffer held is there or nowhere, and everything else is as it
      was. */
  ghost predicate Moved(s: Store, t: Store, node: NodeID) {
    && (forall c :: c in NamesOn(s, node) ==> if node == BUFFER then KeptOrLost(s, t, c) else InOnePlace(s, t, node, c))
    && (forall k: Key :: k.name !in NamesOn(s, node) ==> At(t, k) == At(s, k))
  }

  lemma NotMoved(s: Store, node: NodeID)
    requires SingleOwner(s)
    ensures Moved(s, s, node)
  {
  }

  /** Only one cell may have changed. */
  ghost predicate OnlyAt(s: Store, t: Store, k: Key, cell: Option<Channel>) {
    At(t, k) == cell && forall l :: l != k ==> At(t, l) == At(s, l)
  }

  /** A new channel is in the buffer on standby, or nowhere, and nothing else has changed. */
  ghost predicate IsAdded(s: Store, t: Store, name: Name, ok: bool) {
    OnlyAt(s, t, Key(BUFFER, name), if ok then Some(Channel(BUFFER, Standby)) else None)
  }

  /** The operations fit wherever that leaves the store. */
  ghost predicate FitAfter(s: Store, name: Name, ok: bool, ops: seq<ChannelOp>) {
    forall t, per :: Good(t) && IsAdded(s, t, name, ok) && IsSplit(per, ops) ==> AllWellFormed(t, per)
  }

  lemma AppliedToOne(s: Store, name: Name, per: map<Name, seq<Op>>, done: set<Name>, t: Store)
    requires per.Keys == {name} && SanityCheck(per[name])
    requires IsApplied(s, Moves(per), done, t) && forall c :: c in done ==> c in per
    ensures name in done ==> OneMoved(s, MoveOf(per[name]), name, t)
    ensures name !in done ==> t.cells == s.cells
  {
    if name in done {
      assert forall c :: c in done <==> c == name;
    } else {
      forall k: Key ensures At(t, k) == At(s, k) {
        assert k.name !in done;
      }
      SameCells(s, t);
    }
  }

  lemma SameCells(s: Store, t: Store)
    requires forall k :: At(t, k) == At(s, k)
    ensures t.cells == s.cells
  {
    forall k: Key ensures k in t.cells <==> k in s.cells {
      assert At(t, k) == At(s, k);
    }
    forall k | k in t.cells ensures t.cells[k] == s.cells[k] {
      assert At(t, k) == At(s, k);
    }
  }

  /** A single operation on a single channel is all there is. */
  lemma SplitOfOne(ops: seq<ChannelOp>, name: Name, state: WatchState, per: map<Name, seq<Op>>)
    requires |ops| == 1 && ops[0].channels == [ChannelArg(name, WatchInfo(name, state))] && IsSplit(per, ops)
    ensures per == map[name := [Op(ops[0].kind, ops[0].node, WatchInfo(name, state))]]
  {
    assert AreArgs(ops[0].channels, {name}, state) by {
      assert ops[0].channels[0].name == name;
    }
    forall c
      ensures OpsTo(ops, |ops|, 0, c) == if c == name then [Op(ops[0].kind, ops[0].node, WatchInfo(c, state))] else []
    {
      OpsOfEach(ops, {name}, state, c);
    }
  }

  function OnlyOp(op: ChannelOp, name: Name, state: WatchState): seq<Op> {
    [Op(op.kind, op.node, WatchInfo(name, state))]
  }

  lemma OneFits(s: Store, op: ChannelOp, name: Name, state: WatchState)
    requires op.channels == [ChannelArg(name, WatchInfo(name, state))]
    requires WellFormed(s, name, MoveOf(OnlyOp(op, name, state)))
    ensures forall per :: IsSplit(per, [op]) ==> AllWellFormed(s, per)
  {
    forall per | IsSplit(per, [op]) ensures AllWellFormed(s, per) {
      SplitOfOne([op], name, state, per);
    }
  }

  lemma OneExecuted(
    s: Store, op: ChannelOp, name: Name, state: WatchState, per: map<Name, seq<Op>>, done: set<Name>, t: Store,
    ok: bool)
    requires op.channels == [ChannelArg(name, WatchInfo(name, state))] && op.kind != Add && IsSplit(per, [op])
    requires IsApplied(s, Moves(per), done, t) && (forall c :: c in done ==> c in per) && (ok <==> !Missed(per, done))
    ensures ok ==> OneMoved(s, MoveOf(OnlyOp(op, name, state)), name, t)
    ensures !ok ==> t.cells == s.cells
  {
    SplitOfOne([op], name, state, per);
    AppliedToOne(s, name, per, done, t);
  }

  /** A channel of the node is either still there, as it was, or in the buffer on standby. */
  ghost predicate InOnePlace(s: Store, t: Store, node: NodeID, c: Name) {
    || (At(t, Key(node, c)) == At(s, Key(node, c)) && Key(BUFFER, c) !in t.cells)
    || (At(t, Key(BUFFER, c)) == Some(Channel(BUFFER, Standby)) && Key(node, c) !in t.cells)
  }

  /** A channel of the buffer is still there, as it was, or on no node at all. */
  ghost predicate KeptOrLost(s: Store, t: Store, c: Name) {
    || (forall n :: At(t, Key(n, c)) == At(s, Key(n, c)))
    || (forall n :: Key(n, c) !in t.cells)
  }

  ghost function NamesOn(s: Store, node: NodeID): set<Name> {
    set k | k in s.cells && k.node == node :: k.name
  }

  lemma OnNode(s: Store, node: NodeID, c: Name)
    ensures c in NamesOn(s, node) <==> Key(node, c) in s.cells
  {
  }

  lemma NothingOn(s: Store, node: NodeID, order: seq<Name>)
    requires Enumerates(order, NamesOn(s, node)) && |order| == 0
    ensures forall k :: k in s.cells ==> k.node != node
    ensures NamesOn(s, node) == {}
  {
    forall k | k in s.cells ensures k.node != node {
      OnNode(s, node, k.name);
      assert k == Key(k.node, k.name);
    }
  }

  /** Every channel's operations amount to a transfer to the buffer. */
  ghost predicate AllToBuffer(per: map<Name, seq<Op>>, node: NodeID, names: set<Name>) {
    && (forall c :: c in per <==> c in names)
    && (forall c :: c in per ==>
          SanityCheck(per[c]) && MoveOf(per[c]) == Transfer(node, BUFFER, WatchInfo(c, InfoToWatch)))
  }

  lemma MovesToBuffer(s: Store, ops: seq<ChannelOp>, node: NodeID, names: set<Name>, per: map<Name, seq<Op>>)
    requires SingleOwner(s) && names == NamesOn(s, node) && IsSplit(per, ops)
    requires |ops| == 2 && ops[0].kind == Delete && ops[0].node == node && ops[1].kind == Watch && ops[1].node == BUFFER
    requires AreArgs(ops[0].channels, names, InfoToWatch) && AreArgs(ops[1].channels, names, InfoToWatch)
    ensures AllToBuffer(per, node, names) && AllWellFormed(s, per)
  {
    forall c ensures OpsTo(ops, |ops|, 0, c) ==
      if c in names then
        [Op(Delete, node, WatchInfo(c, InfoToWatch)), Op(Watch, BUFFER, WatchInfo(c, InfoToWatch))]
      else []
    {
      OpsOfPair(ops, names, InfoToWatch, c);
    }
    forall c | c in per ensures WellFormed(s, c, MoveOf(per[c])) {
      OnNode(s, node, c);
    }
  }

  lemma BufferedOrKept(s: Store, per: map<Name, seq<Op>>, node: NodeID, names: set<Name>, done: set<Name>, t: Store)
    requires Good(s) && names == NamesOn(s, node) && AllToBuffer(per, node, names)
    requires IsApplied(s, Moves(per), done, t)
    ensures Moved(s, t, node)
  {
    forall c | c in names ensures if node == BUFFER then KeptOrLost(s, t, c) else InOnePlace(s, t, node, c) {
      OnNode(s, node, c);
      forall n
        ensures At(t, Key(n, c)) == if c in done then CellAfter(s, Moves(per)[c], Key(n, c)) else At(s, Key(n, c))
      {
      }
      assert forall n :: n != node ==> Key(n, c) !in s.cells;
    }
  }

  lemma AllBuffered(s: Store, per: map<Name, seq<Op>>, node: NodeID, names: set<Name>, done: set<Name>, t: Store)
    requires Good(s) && names == NamesOn(s, node) && AllToBuffer(per, node, names)
    requires IsApplied(s, Moves(per), done, t) && forall c :: c in names ==> c in done
    ensures forall k :: k in t.cells ==> k.node != node
  {
  }
}
