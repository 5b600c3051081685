/**
 * Logs that were cut: two maps that exchange logs both ways and still differ, and a removed entry that comes back.
 */
module CrdtOverflow {
  import opened Text
  import opened CrdtView
  import opened CrdtLog
  import opened CrdtMap

  /** Distinct keys. */
  function Name(i: nat): string {
    seq(i, _ => 'k')
  }

  function Names(n: nat): set<string> {
    set i | 0 <= i < n :: Name(i)
  }

  lemma NamesNext(n: nat)
    ensures Name(n) !in Names(n) && Names(n + 1) == Names(n) + {Name(n)}
  {
    assert forall i :: 0 <= i < n ==> |Name(i)| == i;
  }

  lemma {:induction false} NamesSize(n: nat)
    ensures |Names(n)| == n
  {
    if n == 0 {
    } else {
      NamesSize(n - 1);
      NamesNext(n - 1);
    }
  }

  /** A node that shows and logs exactly these keys, all of them inserted. */
  ghost predicate Holds(node: Node, keys: set<string>) {
    node.log == node.shown && node.shown.Keys == keys && forall k :: k in keys ==> node.shown[k].Insert?
  }

  lemma InsertShows(before: Node, keys: set<string>, op: Operation, after: Node)
    requires Holds(before, keys) && op.Insert? && op.key !in keys && Writes(before, op, after)
    ensures after.shown == before.shown[op.key := op] && Appended(before.log, op, after.log)
    ensures Contents(after.shown).Keys == keys + {op.key}
  {
  }

  lemma InsertHolds(before: Node, keys: set<string>, op: Operation, after: Node)
    requires Holds(before, keys) && op.Insert? && op.key !in keys && Writes(before, op, after)
    ensures |keys| < AUTO_COMPACT_THRESHOLD ==> Holds(after, keys + {op.key})
    ensures |keys| >= AUTO_COMPACT_THRESHOLD ==> |after.log| == KEPT
  {
    InsertShows(before, keys, op, after);
    assert |keys + {op.key}| == |keys| + 1;
  }

  /** Nothing happens when a log receives back what it has. */
  lemma {:induction false} NothingNew(local: seq<Operation>, other: seq<Operation>, n: nat)
    requires n <= |other| && Ops(other) <= Ops(local)
    ensures Merged(local, other, n) == local
  {
    if n == 0 {
    } else {
      NothingNew(local, other, n - 1);
      assert other[n - 1] in Ops(other) && other[n - 1] in local;
    }
  }

  lemma NothingDue(shown: View, joined: View)
    ensures MergedShown(shown, joined, {}) == shown
  {
    assert forall k :: !Arrives(shown, joined, {}, k);
  }

  lemma AllSeen(local: seq<Operation>)
    ensures FreshKeys(local, Latest(local)) == {}
  {
    LatestIsView(local);
    var joined := Latest(local);
    forall k | k in joined
      ensures SeenIn(local, joined[k].version)
    {
      assert joined[k] in Ops(local);
    }
  }

  lemma ShownStays(shown: View, local: seq<Operation>, other: seq<Operation>)
    requires Ops(other) <= Ops(local)
    ensures var joined := Latest(Merged(local, other, |other|));
            MergedShown(shown, joined, FreshKeys(local, joined)) == shown
  {
    NothingNew(local, other, |other|);
    AllSeen(local);
    NothingDue(shown, Latest(local));
  }

  /** A map that was empty shows no more than the log it merged amounts to. */
  lemma ShowsNoMore(other: seq<Operation>, joined: View, due: set<string>)
    requires joined == Latest(Merged([], other, |other|))
    ensures MergedShown(map[], joined, due).Keys <= Latest(other).Keys
  {
    var merged := Merged([], other, |other|);
    MergedWithin([], other);
    LatestIsView(merged);
    LatestIsView(other);
    forall k | k in joined
      ensures k in Latest(other)
    {
      assert joined[k] in Ops(merged) && joined[k] in Ops(other);
    }
  }

  /** With one operation per version it shows all of it. */
  lemma ShowsAll(message: View, after: Node)
    requires Merges(EMPTY, message, after)
    ensures Contents(after.shown) == Contents(message)
  {
    var joined := Join(map[], message);
    assert joined == message;
    forall k
      ensures k in Contents(after.shown) <==> k in Contents(message)
      ensures k in Contents(message) ==> after.shown[k] == message[k]
    {
      if k in message {
        assert k in NewKeys(map[], joined);
      }
    }
  }

  /** A map sends its log to an empty one and receives it back. */
  method ExchangeBoth(a: CrdtOrMap, b: CrdtOrMap)
    requires a != b && a.Valid() && b.Valid() && b.log == [] && b.Abstract() == EMPTY
    modifies a, b
    ensures a.store == old(a.store) && b.store.Keys <= old(Latest(a.log)).Keys
    ensures Coherent(old(Ops(a.log))) ==> b.store == Contents(old(Latest(a.log)))
  {
    assert Ops(b.log) + Ops(a.log) == Ops(a.log);
    b.Merge(a.log);
    ShowsNoMore(a.log, Latest(b.log), FreshKeys([], Latest(b.log)));
    if Coherent(Ops(a.log)) {
      ShowsAll(Latest(a.log), b.Abstract());
    }
    StoreIsContents(b.metadata, b.store);
    StoreIsContents(a.metadata, a.store);
    ShownStays(a.Abstract().shown, a.log, b.log);
    a.Merge(b.log);
    StoreIsContents(a.metadata, a.store);
  }

  /** Everything logged is an insertion. */
  ghost predicate AllInserted(log: View) {
    forall k :: k in log ==> log[k].Insert?
  }

  lemma NameAdded(before: Node, i: nat, op: Operation, after: Node)
    requires Holds(before, Names(i)) && op.Insert? && op.key == Name(i) && Writes(before, op, after)
    ensures Contents(after.shown).Keys == Names(i + 1) && AllInserted(after.log)
    ensures i < AUTO_COMPACT_THRESHOLD ==> Holds(after, Names(i + 1))
    ensures i >= AUTO_COMPACT_THRESHOLD ==> |after.log| == KEPT
  {
    NamesSize(i);
    NamesNext(i);
    InsertShows(before, Names(i), op, after);
    InsertHolds(before, Names(i), op, after);
  }

  lemma StillCoherent(ops: set<Operation>, clock: nat, op: Operation, after: set<Operation>)
    requires Coherent(ops) && WithinClock(ops, clock) && clock < op.version.timestamp && after <= ops + {op}
    ensures Coherent(after)
  {
  }

  method AddName(a: CrdtOrMap, i: nat)
    requires a.Valid() && Holds(a.Abstract(), Names(i)) && Coherent(Ops(a.log)) && a.clock < U64_MAX
    modifies a
    ensures a.Valid() && a.store.Keys == Names(i + 1) && AllInserted(Latest(a.log)) && Coherent(Ops(a.log))
    ensures a.clock == old(a.clock) + 1
    ensures i < AUTO_COMPACT_THRESHOLD ==> Holds(a.Abstract(), Names(i + 1))
    ensures i >= AUTO_COMPACT_THRESHOLD ==> |Latest(a.log)| == KEPT
  {
    ghost var before, ops, clock := a.Abstract(), Ops(a.log), a.clock;
    var _ := a.InsertEntry(Name(i), []);
    ghost var op := Insert(Name(i), [], Version(a.clock, a.replicaId));
    NameAdded(before, i, op, a.Abstract());
    StillCoherent(ops, clock, op, Ops(a.log));
    StoreIsContents(a.metadata, a.store);
  }

  method FilledMap(id: ReplicaId, n: nat) returns (a: CrdtOrMap)
    requires n <= AUTO_COMPACT_THRESHOLD
    ensures fresh(a) && a.Valid() && Holds(a.Abstract(), Names(n)) && Coherent(Ops(a.log)) && a.clock == n
  {
    a := new CrdtOrMap(id);
    for i := 0 to n
      invariant fresh(a) && a.Valid() && Holds(a.Abstract(), Names(i)) && Coherent(Ops(a.log)) && a.clock == i
    {
      AddName(a, i);
    }
  }

  lemma AllShown(log: View)
    requires AllInserted(log)
    ensures Contents(log).Keys == log.Keys
  {
  }

  /** One key beyond the threshold: after merging each other's logs the two maps show different entries. */
  method ExchangeDiverges(idA: ReplicaId, idB: ReplicaId) returns (a: CrdtOrMap, b: CrdtOrMap)
    ensures |a.store| == 10_001 && |b.store| == 7_500
  {
    a := FilledMap(idA, AUTO_COMPACT_THRESHOLD);
    AddName(a, AUTO_COMPACT_THRESHOLD);
    NamesSize(AUTO_COMPACT_THRESHOLD + 1);
    b := new CrdtOrMap(idB);
    ghost var kept := Latest(a.log);
    ExchangeBoth(a, b);
    AllShown(kept);
    assert |a.store| == |a.store.Keys| && |b.store| == |b.store.Keys| && |kept| == |kept.Keys|;
  }

  // ---------------------------------------------------------------- a removed entry that comes back

  predicate NoName(key: string) {
    key != "" && key[0] != 'k'
  }

  lemma NotNamed(key: string, i: nat)
    requires NoName(key)
    ensures Name(i) != key
  {
  }

  /** Everything else in the log comes after a removal. */
  ghost predicate Behind(log: View, keys: set<string>, removal: Operation) {
    && log.Keys == keys + {removal.key} && log[removal.key] == removal
    && forall k :: k in keys ==> removal.version.Before(log[k].version)
  }

  lemma LeftOut<T>(kept: set<T>, all: set<T>) returns (x: T)
    requires |kept| < |all|
    ensures x in all && x !in kept
  {
    if all <= kept {
      SubsetSize(all, kept);
    }
    x :| x in all && x !in kept;
  }

  /** An operation that comes before all others is the first to be cut. */
  lemma OldestCut(kept: View, all: View, keys: set<string>, n: nat, removal: Operation)
    requires IsCut(kept, all, n) && n < |all| && Behind(all, keys, removal)
    ensures removal.key !in kept
  {
    assert |kept.Keys| == |kept| && |all.Keys| == |all|;
    var k := LeftOut(kept.Keys, all.Keys);
  }

  lemma BehindNext(log: View, keys: set<string>, removal: Operation, op: Operation)
    requires Behind(log, keys, removal) && op.key !in log && removal.version.Before(op.version)
    ensures Behind(Update(log, op), keys + {op.key}, removal)
  {
  }

  lemma BehindSize(log: View, keys: set<string>, removal: Operation)
    requires Behind(log, keys, removal) && removal.key !in keys
    ensures |log| == |log.Keys| == |keys| + 1
  {
  }

  /** With room, another key is logged after the removal; without, the removal is cut. */
  lemma BehindWrite(log: View, keys: set<string>, removal: Operation, op: Operation, after: View)
    requires Behind(log, keys, removal) && removal.key !in keys && op.key !in log && removal.version.Before(op.version)
    requires Appended(log, op, after)
    ensures |keys| + 2 <= AUTO_COMPACT_THRESHOLD ==> Behind(after, keys + {op.key}, removal)
    ensures |keys| + 2 > AUTO_COMPACT_THRESHOLD ==> removal.key !in after
  {
    BehindNext(log, keys, removal, op);
    BehindSize(Update(log, op), keys + {op.key}, removal);
    assert log.Keys + {op.key} == Update(log, op).Keys;
    if !HasRoom(log, op.key) {
      OldestCut(after, Update(log, op), keys + {op.key}, KEPT, removal);
    }
  }

  /** Some keys are shown, and logged after a removal whose tombstone is no longer shown. */
  ghost predicate Waiting(node: Node, keys: set<string>, removal: Operation) {
    node.shown.Keys == keys && removal.key !in keys && Behind(node.log, keys, removal)
  }

  lemma WaitingNext(before: Node, keys: set<string>, removal: Operation, op: Operation, after: Node)
    requires Waiting(before, keys, removal) && op.key !in keys && op.key != removal.key
    requires op.Insert? && removal.version.Before(op.version) && Writes(before, op, after)
    ensures removal.key !in after.shown
    ensures |keys| + 2 <= AUTO_COMPACT_THRESHOLD ==> Waiting(after, keys + {op.key}, removal)
    ensures |keys| + 2 > AUTO_COMPACT_THRESHOLD ==> removal.key !in after.log
  {
    assert Records(before.shown, op) && after.shown == before.shown[op.key := op];
    assert after.shown.Keys == keys + {op.key};
    BehindWrite(before.log, keys, removal, op, after.log);
  }

  /** All operations at other keys come after the removal. */
  ghost predicate NoneOlder(ops: set<Operation>, removal: Operation) {
    forall op :: op in ops && op.key != removal.key ==> removal.version.timestamp < op.version.timestamp
  }

  /** A log that holds nothing but an insertion brings it back where neither log nor metadata know of the key. */
  lemma Returns(local: seq<Operation>, shown: View, other: seq<Operation>, insertion: Operation)
    requires insertion.Insert? && insertion.key !in shown && insertion.key !in Latest(local)
    requires !SeenIn(local, insertion.version) && Ops(other) == {insertion}
    ensures var joined := Latest(Merged(local, other, |other|));
            var after := MergedShown(shown, joined, FreshKeys(local, joined));
            insertion.key in after && after[insertion.key] == insertion
  {
    var merged := Merged(local, other, |other|);
    assert insertion in Ops(other);
    var i := FirstPlace(other, insertion);
    assert !SeenIn(other[..i], insertion.version) by {
      assert forall o :: o in other[..i] ==> o in Ops(other);
    }
    assert TakenAt(local, other, |other|, insertion, i);
    MergedIff(local, other, |other|, insertion);
    MergedWithin(local, other);
    LatestIsView(merged);
    LatestIsView(local);
    assert insertion in Ops(merged);
    var op := Latest(merged)[insertion.key];
    assert op in Ops(merged) && op in Ops(local) + Ops(other);
    assert op == insertion;
    assert Arrives(shown, Latest(merged), FreshKeys(local, Latest(merged)), insertion.key);
  }

  lemma NoneOlderNext(ops: set<Operation>, removal: Operation, op: Operation, after: set<Operation>)
    requires NoneOlder(ops, removal) && removal.version.timestamp < op.version.timestamp && after <= ops + {op}
    ensures NoneOlder(after, removal)
  {
  }

  lemma NameWaits(before: Node, n: nat, removal: Operation, op: Operation, after: Node)
    requires Waiting(before, Names(n), removal) && op.Insert? && op.key == Name(n) && op.key != removal.key
    requires removal.version.Before(op.version) && Writes(before, op, after)
    ensures removal.key !in after.shown
    ensures n + 2 <= AUTO_COMPACT_THRESHOLD ==> Waiting(after, Names(n + 1), removal)
    ensures n + 2 > AUTO_COMPACT_THRESHOLD ==> removal.key !in after.log
  {
    NamesSize(n);
    NamesNext(n);
    WaitingNext(before, Names(n), removal, op, after);
  }

  /** The map shows `n` names, all logged after a removal that it no longer shows, and its log has nothing older. */
  ghost predicate Ready(a: CrdtOrMap, n: nat, removal: Operation)
    reads a
  {
    && a.Valid() && a.clock == n + 2 && removal.version.timestamp == 2 && NoName(removal.key)
    && Waiting(a.Abstract(), Names(n), removal) && NoneOlder(Ops(a.log), removal)
  }

  /** Another name; the one for which there is no room cuts the removal. */
  method AddAfter(a: CrdtOrMap, n: nat, ghost removal: Operation)
    requires Ready(a, n, removal) && n + 2 < U64_MAX
    modifies a
    ensures a.Valid() && NoneOlder(Ops(a.log), removal) && removal.key !in a.Abstract().shown
    ensures if n + 2 <= AUTO_COMPACT_THRESHOLD then Ready(a, n + 1, removal) else removal.key !in Latest(a.log)
  {
    ghost var before, ops := a.Abstract(), Ops(a.log);
    NotNamed(removal.key, n);
    var _ := a.InsertEntry(Name(n), []);
    ghost var op := Insert(Name(n), [], Version(a.clock, a.replicaId));
    NameWaits(before, n, removal, op, a.Abstract());
    NoneOlderNext(ops, removal, op, Ops(a.log));
  }

  method FillAfter(a: CrdtOrMap, n: nat, ghost removal: Operation)
    requires Ready(a, 0, removal) && n + 1 <= AUTO_COMPACT_THRESHOLD
    modifies a
    ensures Ready(a, n, removal)
  {
    for i := 0 to n
      invariant Ready(a, i, removal)
    {
      AddAfter(a, i, removal);
    }
  }

  /** A log about one operation. */
  ghost predicate Only(log: seq<Operation>, op: Operation) {
    Ops(log) == {op} && Latest(log) == map[op.key := op]
  }

  lemma OnlyIs(log: seq<Operation>, op: Operation)
    requires Ops(log) <= {op} && op.key in Latest(log)
    ensures Only(log, op)
  {
    LatestIsView(log);
    assert Latest(log)[op.key] in Ops(log);
    assert forall k :: k in Latest(log) ==> Latest(log)[k] in Ops(log);
  }

  lemma FirstInsertion(op: Operation, after: Node)
    requires op.Insert? && Writes(EMPTY, op, after)
    ensures after.shown == after.log == map[op.key := op]
  {
    assert {} + {op.key} == {op.key};
    assert HasRoom(EMPTY.log, op.key);
  }

  lemma ThenRemoval(before: Node, insertion: Operation, removal: Operation, after: Node)
    requires before.shown == before.log == map[insertion.key := insertion] && Writes(before, removal, after)
    requires removal.Remove? && removal.key == insertion.key && insertion.version.Before(removal.version)
    ensures after.shown == after.log == map[removal.key := removal]
  {
    assert before.log.Keys + {removal.key} == {removal.key};
    assert HasRoom(before.log, removal.key);
  }

  lemma ThenCollection(node: Node, removal: Operation)
    requires removal.Remove? && node.shown == node.log == map[removal.key := removal]
    ensures Waiting(node.(shown := Forgotten(node.shown, {removal.key})), {}, removal)
  {
  }

  method InsertOnly(id: ReplicaId, key: string, value: Value) returns (a: CrdtOrMap, ghost insertion: Operation)
    ensures fresh(a) && a.Valid() && a.clock == 1 && Only(a.log, insertion)
    ensures insertion == Insert(key, value, Version(1, id)) && a.replicaId == id
    ensures a.Abstract().shown == a.Abstract().log == map[key := insertion]
  {
    a := new CrdtOrMap(id);
    var _ := a.InsertEntry(key, value);
    insertion := Insert(key, value, Version(1, id));
    FirstInsertion(insertion, a.Abstract());
    OnlyIs(a.log, insertion);
  }

  method CopyOnly(a: CrdtOrMap, id: ReplicaId, ghost insertion: Operation) returns (b: CrdtOrMap)
    requires a.Valid() && Only(a.log, insertion)
    ensures fresh(b) && b.Valid() && Only(b.log, insertion)
  {
    b := new CrdtOrMap(id);
    ghost var empty := b.Abstract();
    assert Ops(b.log) + Ops(a.log) == {insertion};
    b.Merge(a.log);
    assert Merges(empty, Latest(a.log), b.Abstract());
    OnlyIs(b.log, insertion);
  }

  lemma NoneOther(insertion: Operation, removal: Operation, ops: set<Operation>)
    requires insertion.key == removal.key && ops <= {insertion} + {removal}
    ensures NoneOlder(ops, removal)
  {
  }

  method RemoveAndCollect(a: CrdtOrMap, key: string, ghost insertion: Operation) returns (ghost removal: Operation)
    requires a.Valid() && a.clock == 1 && Only(a.log, insertion)
    requires NoName(key) && insertion.Insert? && insertion.key == key && insertion.version.timestamp == 1
    requires a.Abstract().shown == a.Abstract().log == map[key := insertion]
    modifies a
    ensures removal.key == key && Ready(a, 0, removal)
  {
    ghost var before := a.Abstract();
    var _ := a.RemoveEntry(key);
    removal := Remove(key, Version(2, a.replicaId));
    ThenRemoval(before, insertion, removal, a.Abstract());
    ThenCollection(a.Abstract(), removal);
    NoneOther(insertion, removal, Ops(a.log));
    var _ := a.GcTombstones({key});
  }

  lemma NoneSeen(log: seq<Operation>, removal: Operation, version: Version)
    requires NoneOlder(Ops(log), removal) && removal.key !in Latest(log)
    requires version.timestamp < removal.version.timestamp
    ensures !SeenIn(log, version)
  {
    LatestIsView(log);
    forall op | op in log
      ensures op.version != version
    {
      assert op in Ops(log);
    }
  }

  /** A merged log brings back the insertion it holds where nothing as old is logged and the key is unknown. */
  method MergeBack(a: CrdtOrMap, b: CrdtOrMap, ghost insertion: Operation)
    requires a != b && a.Valid() && b.Valid() && insertion.Insert? && Only(b.log, insertion)
    requires insertion.key !in a.Abstract().shown && insertion.key !in Latest(a.log)
    requires !SeenIn(a.log, insertion.version)
    modifies a
    ensures insertion.key in a.store && a.store[insertion.key] == insertion.value
  {
    Returns(a.log, a.Abstract().shown, b.log, insertion);
    a.Merge(b.log);
    StoreIsContents(a.metadata, a.store);
  }

  /**
   * A map inserts an entry, a second one merges its log, the first removes the entry, collects the tombstone and
   * inserts as many other keys as fill its log. The entry is gone. Merging the second map's log brings it back.
   */
  method RemovalReturns(idA: ReplicaId, idB: ReplicaId, key: string, value: Value)
    returns (a: CrdtOrMap, b: CrdtOrMap, gone: bool)
    requires NoName(key)
    ensures gone && key in a.store && a.store[key] == value
  {
    ghost var insertion, removal;
    a, insertion := InsertOnly(idA, key, value);
    b := CopyOnly(a, idB, insertion);
    removal := RemoveAndCollect(a, key, insertion);
    FillAfter(a, AUTO_COMPACT_THRESHOLD - 1, removal);
    AddAfter(a, AUTO_COMPACT_THRESHOLD - 1, removal);
    gone := key !in a.store;
    NoneSeen(a.log, removal, insertion.version);
    StoreIsContents(a.metadata, a.store);
    MergeBack(a, b, insertion);
  }
}
