/** The replicated map kept by one node: store and version metadata in front of an operation log. */
module CrdtMap {
  import opened Text
  import opened CrdtView
  import opened CrdtLog

  const U64_MAX: nat := 0xffff_ffff_ffff_ffff

  datatype Meta = Meta(version: Version, tombstone: bool)
  type Metadata = map<string, seq<Meta>>
  type Store = map<string, Value>

  /** `max_by_key` on versions: of equal ones the last. */
  function Winner(versions: seq<Meta>): Meta
    requires versions != []
  {
    var last := versions[|versions| - 1];
    if |versions| == 1 then last
    else
      var w := Winner(versions[..|versions| - 1]);
      if last.version.Before(w.version) then w else last
  }

  lemma WinnerOfTwo(a: Meta, b: Meta)
    ensures Winner([a, b]) == if b.version.Before(a.version) then a else b
  {
    assert [a, b][..1] == [a];
  }

  function Compacted(versions: seq<Meta>): seq<Meta> {
    if |versions| <= 1 then versions else [Winner(versions)]
  }

  // ---------------------------------------------------------------- what a node shows

  /** A key has one recorded version, if any, and is stored exactly if that is no tombstone. */
  predicate KeptAt(metadata: Metadata, store: Store, k: string) {
    if k in metadata then |metadata[k]| == 1 && (k in store <==> !metadata[k][0].tombstone) else k !in store
  }

  ghost predicate WellKept(metadata: Metadata, store: Store) {
    forall k :: KeptAt(metadata, store, k)
  }

  /** The operation that metadata and store of a key stand for. */
  function ShownOp(metadata: Metadata, store: Store, k: string): Operation
    requires KeptAt(metadata, store, k) && k in metadata
  {
    if k in store then Insert(k, store[k], metadata[k][0].version) else Remove(k, metadata[k][0].version)
  }

  ghost function Shown(metadata: Metadata, store: Store): View
    requires WellKept(metadata, store)
  {
    map k | k in metadata :: ShownOp(metadata, store, k)
  }

  /** Readers see the contents of what is shown. */
  lemma StoreIsContents(metadata: Metadata, store: Store)
    requires WellKept(metadata, store)
    ensures Contents(Shown(metadata, store)) == store
  {
    assert forall k :: k in store ==> KeptAt(metadata, store, k);
  }

  /** Whether an operation replaces what is shown for its key; the removal of an unknown key does nothing. */
  predicate Records(shown: View, op: Operation) {
    match op
    case Insert(key, _, version) => key !in shown || shown[key].version.Before(version)
    case Remove(key, version) => key in shown && !version.Before(shown[key].version) && shown[key] != op
  }

  function Applied(shown: View, op: Operation): View {
    if Records(shown, op) then shown[op.key := op] else shown
  }

  function AppliedAll(shown: View, ops: seq<Operation>, n: nat): View
    requires n <= |ops|
  {
    if n == 0 then shown else Applied(AppliedAll(shown, ops, n - 1), ops[n - 1])
  }

  lemma ShownAfterAt(metadata: Metadata, store: Store, op: Operation, metadata': Metadata, store': Store, k: string)
    requires KeptAt(metadata, store, k)
    requires metadata' == metadata[op.key := [Meta(op.version, op.Remove?)]]
    requires store' == if op.Insert? then store[op.key := op.value] else store - {op.key}
    ensures KeptAt(metadata', store', k)
    ensures k == op.key ==> ShownOp(metadata', store', k) == op
    ensures k != op.key && k in metadata ==> ShownOp(metadata', store', k) == ShownOp(metadata, store, k)
  {
  }

  lemma KeptAfter(metadata: Metadata, store: Store, op: Operation, metadata': Metadata, store': Store)
    requires WellKept(metadata, store)
    requires metadata' == metadata[op.key := [Meta(op.version, op.Remove?)]]
    requires store' == if op.Insert? then store[op.key := op.value] else store - {op.key}
    ensures WellKept(metadata', store')
  {
    forall k: string
      ensures KeptAt(metadata', store', k)
    {
      assert KeptAt(metadata, store, k);
      ShownAfterAt(metadata, store, op, metadata', store', k);
    }
  }

  /** Writing an operation to its key's metadata and store shows it. */
  lemma ShownAfter(metadata: Metadata, store: Store, op: Operation, metadata': Metadata, store': Store)
    requires WellKept(metadata, store)
    requires metadata' == metadata[op.key := [Meta(op.version, op.Remove?)]]
    requires store' == if op.Insert? then store[op.key := op.value] else store - {op.key}
    ensures WellKept(metadata', store') && Shown(metadata', store') == Shown(metadata, store)[op.key := op]
  {
    KeptAfter(metadata, store, op, metadata', store');
    var expected := Shown(metadata, store)[op.key := op];
    forall k | k in metadata'
      ensures k in expected && Shown(metadata', store')[k] == expected[k]
    {
      assert KeptAt(metadata, store, k) && KeptAt(metadata', store', k);
      ShownAfterAt(metadata, store, op, metadata', store', k);
    }
  }

  lemma RecordsIs(metadata: Metadata, store: Store, op: Operation)
    requires WellKept(metadata, store) && KeptAt(metadata, store, op.key)
    ensures Records(Shown(metadata, store), op)
            <==> if op.Insert? then op.key !in metadata || metadata[op.key][0].version.Before(op.version)
                 else op.key in metadata && metadata[op.key][0] != Meta(op.version, true)
                      && !op.version.Before(metadata[op.key][0].version)
  {
  }

  function NextTick(clock: nat): nat {
    if clock < U64_MAX then clock + 1 else U64_MAX
  }

  ghost predicate WithinClock(ops: set<Operation>, clock: nat) {
    forall op :: op in ops ==> op.version.timestamp <= clock
  }

  predicate ViewWithin(view: View, clock: nat) {
    forall k :: k in view ==> view[k].version.timestamp <= clock
  }

  lemma AppliedWithin(shown: View, op: Operation, clock: nat)
    requires ViewWithin(shown, clock) && op.version.timestamp <= clock
    ensures ViewWithin(Applied(shown, op), clock)
  {
  }

  // ---------------------------------------------------------------- a node and its steps

  /** A node as other nodes and readers can tell: its clock, what it shows, and what its log amounts to. */
  datatype Node = Node(clock: nat, shown: View, log: View)

  const EMPTY := Node(0, map[], map[])

  /** A local operation: stamped by the clock, shown and logged if it is recorded at all. */
  ghost predicate Writes(before: Node, op: Operation, after: Node) {
    && after.clock == NextTick(before.clock)
    && after.shown == Applied(before.shown, op)
    && if Records(before.shown, op) then Appended(before.log, op, after.log) else after.log == before.log
  }

  /** What is shown once the operations of `joined` at the `due` keys have been applied. */
  function MergedShown(shown: View, joined: View, due: set<string>): View {
    map k | k in shown.Keys + joined.Keys && (k in shown || Arrives(shown, joined, due, k)) ::
      if Arrives(shown, joined, due, k) then joined[k] else shown[k]
  }

  predicate Arrives(shown: View, joined: View, due: set<string>, k: string) {
    k in due && k in joined && Records(shown, joined[k])
  }

  /** The keys whose latest operation the local log did not have. */
  function NewKeys(local: View, joined: View): set<string> {
    set k | k in joined && !(k in local && local[k] == joined[k])
  }

  /** Merging a log that amounts to `message`. */
  ghost predicate Merges(before: Node, message: View, after: Node) {
    var joined := Join(before.log, message);
    && after.log == joined && after.shown == MergedShown(before.shown, joined, NewKeys(before.log, joined))
    && before.clock <= after.clock <= U64_MAX && ViewWithin(joined, after.clock)
  }

  /** Tombstones among the expired keys are no longer shown as such; readers see no difference. */
  function Forgotten(shown: View, expired: set<string>): View {
    map k | k in shown && !(k in expired && shown[k].Remove?) :: shown[k]
  }

  // ---------------------------------------------------------------- the operations a merge applies

  /** By version: the keys whose latest operation after the merge the local log had not seen. */
  ghost function FreshKeys(local: seq<Operation>, joined: View): set<string> {
    set k | k in joined && !SeenIn(local, joined[k].version)
  }

  function KeysOf(ops: seq<Operation>, n: nat): set<string>
    requires n <= |ops|
  {
    set i | 0 <= i < n :: ops[i].key
  }

  ghost predicate DistinctKeys(ops: seq<Operation>) {
    forall i, j :: 0 <= i < j < |ops| ==> ops[i].key != ops[j].key
  }

  ghost predicate FromView(ops: seq<Operation>, view: View) {
    forall i :: 0 <= i < |ops| ==> ops[i].key in view && view[ops[i].key] == ops[i]
  }

  lemma MergedShownStep(shown: View, joined: View, due: set<string>, op: Operation)
    requires op.key in joined && joined[op.key] == op && op.key !in due
    ensures Applied(MergedShown(shown, joined, due), op) == MergedShown(shown, joined, due + {op.key})
  {
    var before, after := MergedShown(shown, joined, due), MergedShown(shown, joined, due + {op.key});
    assert op.key in before <==> op.key in shown;
    assert Records(before, op) <==> Records(shown, op);
    forall k
      ensures k in after <==> k in Applied(before, op)
      ensures k in after ==> after[k] == Applied(before, op)[k]
    {
      if k != op.key {
        assert Arrives(shown, joined, due + {op.key}, k) <==> Arrives(shown, joined, due, k);
      }
    }
  }

  lemma {:induction false} AppliedAllIs(shown: View, joined: View, ops: seq<Operation>, n: nat)
    requires n <= |ops| && DistinctKeys(ops) && FromView(ops, joined)
    ensures AppliedAll(shown, ops, n) == MergedShown(shown, joined, KeysOf(ops, n))
  {
    if n == 0 {
    } else {
      AppliedAllIs(shown, joined, ops, n - 1);
      MergedShownStep(shown, joined, KeysOf(ops, n - 1), ops[n - 1]);
      assert KeysOf(ops, n) == KeysOf(ops, n - 1) + {ops[n - 1].key};
    }
  }

  lemma {:induction false} AppliedAllWithin(shown: View, ops: seq<Operation>, n: nat, clock: nat)
    requires n <= |ops| && ViewWithin(shown, clock) && forall i :: 0 <= i < |ops| ==> ops[i].version.timestamp <= clock
    ensures ViewWithin(AppliedAll(shown, ops, n), clock)
  {
    if n == 0 {
    } else {
      AppliedAllWithin(shown, ops, n - 1, clock);
      AppliedWithin(AppliedAll(shown, ops, n - 1), ops[n - 1], clock);
    }
  }

  /** With one operation per version, unseen by version is new to the view. */
  lemma FreshIsNew(local: seq<Operation>, other: seq<Operation>, joined: View)
    requires Coherent(Ops(local) + Ops(other)) && IsViewOf(joined, Ops(local) + Ops(other))
    ensures FreshKeys(local, joined) == NewKeys(Latest(local), joined)
  {
    forall k
      ensures k in FreshKeys(local, joined) <==> k in NewKeys(Latest(local), joined)
    {
      if k in joined {
        SeenIsLatest(local, other, joined, k);
      }
    }
  }

  lemma SeenIsLatest(local: seq<Operation>, other: seq<Operation>, joined: View, k: string)
    requires Coherent(Ops(local) + Ops(other)) && IsViewOf(joined, Ops(local) + Ops(other)) && k in joined
    ensures SeenIn(local, joined[k].version) <==> k in Latest(local) && Latest(local)[k] == joined[k]
  {
    LatestIsView(local);
    if SeenIn(local, joined[k].version) {
      var op :| op in local && op.version == joined[k].version;
      assert op in Ops(local) && joined[k] in Ops(local) + Ops(other);
      assert op == joined[k];
      assert Latest(local)[k] in Ops(local);
      VersionsTotal(joined[k].version, Latest(local)[k].version);
    }
    if k in Latest(local) && Latest(local)[k] == joined[k] {
      assert joined[k] in Ops(local);
    }
  }

  /** `unseen` are the operations among `c` with an unseen version, in order. */
  ghost predicate Filtered(c: seq<Operation>, seen: set<Version>, unseen: seq<Operation>) {
    && (forall op :: op in unseen <==> op in c && op.version !in seen)
    && (DistinctKeys(c) ==> DistinctKeys(unseen))
  }

  lemma FilteredMore(c: seq<Operation>, seen: set<Version>, unseen: seq<Operation>, op: Operation)
    requires Filtered(c, seen, unseen)
    ensures Filtered(c + [op], seen, if op.version in seen then unseen else unseen + [op])
  {
    if DistinctKeys(c + [op]) {
      forall i, j | 0 <= i < j < |c|
        ensures c[i].key != c[j].key
      {
        assert (c + [op])[i] == c[i] && (c + [op])[j] == c[j];
      }
      forall i | 0 <= i < |unseen|
        ensures unseen[i].key != op.key
      {
        assert unseen[i] in unseen;
        var j :| 0 <= j < |c| && c[j] == unseen[i];
        assert (c + [op])[j] == unseen[i] && (c + [op])[|c|] == op;
      }
    }
  }

  method Unseen(c: seq<Operation>, local: seq<Operation>, ghost joined: View) returns (unseen: seq<Operation>)
    requires Lists(c, joined)
    ensures DistinctKeys(unseen) && FromView(unseen, joined)
    ensures KeysOf(unseen, |unseen|) == FreshKeys(local, joined)
    ensures forall op :: op in c ==> op in unseen || SeenIn(local, op.version)
    ensures forall op :: op in unseen ==> op in c
  {
    var seen := set op | op in local :: op.version;
    unseen := [];
    for i := 0 to |c|
      invariant Filtered(c[..i], seen, unseen)
    {
      assert c[..i + 1] == c[..i] + [c[i]];
      FilteredMore(c[..i], seen, unseen, c[i]);
      if c[i].version !in seen {
        unseen := unseen + [c[i]];
      }
    }
    assert c[..|c|] == c;
    FilteredFrom(c, seen, unseen, joined);
    UnseenKeys(c, unseen, local, joined);
  }

  lemma FilteredFrom(c: seq<Operation>, seen: set<Version>, unseen: seq<Operation>, joined: View)
    requires Lists(c, joined) && Filtered(c, seen, unseen)
    ensures DistinctKeys(unseen) && FromView(unseen, joined)
  {
    forall i | 0 <= i < |unseen|
      ensures unseen[i].key in joined && joined[unseen[i].key] == unseen[i]
    {
      assert unseen[i] in unseen && unseen[i] in c;
    }
  }

  lemma UnseenKeys(c: seq<Operation>, unseen: seq<Operation>, local: seq<Operation>, joined: View)
    requires Lists(c, joined) && forall op :: op in unseen <==> op in c && !SeenIn(local, op.version)
    ensures KeysOf(unseen, |unseen|) == FreshKeys(local, joined)
  {
    forall k
      ensures k in KeysOf(unseen, |unseen|) <==> k in FreshKeys(local, joined)
    {
      if k in FreshKeys(local, joined) {
        assert joined[k] in c && joined[k] in unseen;
      }
      if k in KeysOf(unseen, |unseen|) {
        var i :| 0 <= i < |unseen| && unseen[i].key == k;
        assert unseen[i] in unseen && unseen[i] in c;
      }
    }
  }

  // ---------------------------------------------------------------- the map

  class CrdtOrMap {
    const replicaId: ReplicaId
    var store: Store
    var metadata: Metadata
    var clock: nat
    var log: seq<Operation>

    ghost predicate Valid()
      reads this
    {
      && WellKept(metadata, store) && clock <= U64_MAX
      && WithinClock(Ops(log), clock) && ViewWithin(Shown(metadata, store), clock)
    }

    ghost function Abstract(): Node
      requires WellKept(metadata, store)
      reads this
    {
      Node(clock, Shown(metadata, store), Latest(log))
    }

    constructor (replicaId: ReplicaId)
      ensures Valid() && Abstract() == EMPTY && log == [] && this.replicaId == replicaId
    {
      this.replicaId := replicaId;
      store, metadata, clock, log := map[], map[], 0, [];
    }

    /** Saturating increment. */
    method Tick() returns (timestamp: nat)
      requires clock <= U64_MAX
      modifies this`clock
      ensures clock == timestamp == NextTick(old(clock))
    {
      clock := if clock < U64_MAX then clock + 1 else U64_MAX;
      timestamp := clock;
    }

    method Witness(remote: nat)
      requires clock <= U64_MAX && remote <= U64_MAX
      modifies this`clock
      ensures old(clock) <= clock <= U64_MAX && remote <= clock
      ensures clock == NextTick(if old(clock) < remote then remote else old(clock))
    {
      var m := if clock < remote then remote else clock;
      clock := if m < U64_MAX then m + 1 else U64_MAX;
    }

    method RecordInsert(key: string, version: Version) returns (applied: bool)
      requires key in metadata ==> |metadata[key]| == 1
      modifies this`metadata
      ensures applied <==> old(key !in metadata || metadata[key][0].version.Before(version))
      ensures metadata == if applied then old(metadata)[key := [Meta(version, false)]] else old(metadata)
    {
      if key !in metadata {
        metadata := metadata[key := [Meta(version, false)]];
        return true;
      }
      var versions := metadata[key];
      if (exists v :: v in versions && v.version == version) || version.Before(Winner(versions).version) {
        assert versions[0] in versions && metadata[key := versions] == metadata;
        metadata := metadata[key := Compacted(versions)];
        return false;
      }
      assert versions[0].version != version by {
        assert versions[0] in versions;
      }
      VersionsTotal(versions[0].version, version);
      WinnerOfTwo(versions[0], Meta(version, false));
      assert versions + [Meta(version, false)] == [versions[0], Meta(version, false)];
      metadata := metadata[key := Compacted(versions + [Meta(version, false)])];
      applied := true;
    }

    method RecordRemove(key: string, version: Version) returns (applied: bool)
      requires key in metadata ==> |metadata[key]| == 1
      modifies this`metadata
      ensures applied <==> old(
                if key in metadata
                then metadata[key][0] != Meta(version, true) && !version.Before(metadata[key][0].version)
                else key in store)
      ensures metadata == if applied then old(metadata)[key := [Meta(version, true)]] else old(metadata)
    {
      if key !in metadata {
        if key in store {
          metadata := metadata[key := [Meta(version, true)]];
          return true;
        }
        return false;
      }
      var versions := metadata[key];
      assert versions == [versions[0]];
      if Meta(version, true) in versions || exists v :: v in versions && version.Before(v.version) {
        assert metadata[key := versions] == metadata;
        metadata := metadata[key := Compacted(versions)];
        return false;
      }
      assert versions[0] in versions && !version.Before(versions[0].version);
      WinnerOfTwo(versions[0], Meta(version, true));
      assert versions + [Meta(version, true)] == [versions[0], Meta(version, true)];
      metadata := metadata[key := Compacted(versions + [Meta(version, true)])];
      applied := true;
    }

    /** Records an operation and, if it counts, writes it to the store. */
    method ApplyOperation(op: Operation) returns (applied: bool)
      requires WellKept(metadata, store)
      modifies this`metadata, this`store
      ensures WellKept(metadata, store)
      ensures Shown(metadata, store) == Applied(old(Shown(metadata, store)), op)
      ensures applied <==> Records(old(Shown(metadata, store)), op)
    {
      assert KeptAt(metadata, store, op.key);
      RecordsIs(metadata, store, op);
      match op
      case Insert(key, value, version) =>
        applied := RecordInsert(key, version);
        if applied {
          store := store[key := value];
          ShownAfter(old(metadata), old(store), op, metadata, store);
        }
      case Remove(key, version) =>
        applied := RecordRemove(key, version);
        if applied {
          store := store - {key};
          ShownAfter(old(metadata), old(store), op, metadata, store);
        }
    }

    /** Applies and logs a local operation stamped by the clock. */
    method Local(op: Operation) returns (applied: bool)
      requires Valid() && op.version == Version(clock, replicaId)
      modifies this`metadata, this`store, this`log
      ensures Valid() && applied == Records(old(Shown(metadata, store)), op)
      ensures Shown(metadata, store) == Applied(old(Shown(metadata, store)), op)
      ensures if applied then Appended(old(Latest(log)), op, Latest(log)) else log == old(log)
      ensures Ops(log) <= old(Ops(log)) + {op}
    {
      AppliedWithin(Shown(metadata, store), op, clock);
      applied := ApplyOperation(op);
      log := AppendIf(applied, log, op, clock);
    }

    method InsertEntry(key: string, value: Value) returns (prev: Option<Value>)
      requires Valid()
      modifies this
      ensures Valid() && Writes(old(Abstract()), Insert(key, value, Version(clock, replicaId)), Abstract())
      ensures Ops(log) <= old(Ops(log)) + {Insert(key, value, Version(clock, replicaId))}
      ensures prev == if old(key in store) then Some(old(store[key])) else None
    {
      var timestamp := Tick();
      prev := if key in store then Some(store[key]) else None;
      var _ := Local(Insert(key, value, Version(timestamp, replicaId)));
    }

    /** Returns the removed value, or nothing if the removal was not recorded. */
    method RemoveEntry(key: string) returns (removed: Option<Value>)
      requires Valid()
      modifies this
      ensures Valid() && Writes(old(Abstract()), Remove(key, Version(clock, replicaId)), Abstract())
      ensures Ops(log) <= old(Ops(log)) + {Remove(key, Version(clock, replicaId))}
      ensures removed == if old(key in store) && key !in store then Some(old(store[key])) else None
    {
      var timestamp := Tick();
      var current := if key in store then Some(store[key]) else None;
      var applied := Local(Remove(key, Version(timestamp, replicaId)));
      removed := if applied then current else None;
      StoreIsContents(old(metadata), old(store));
      StoreIsContents(metadata, store);
    }

    /** Applies a received operation and moves the clock past it. */
    method Receive(op: Operation)
      requires WellKept(metadata, store) && clock <= U64_MAX && op.version.timestamp <= U64_MAX
      modifies this`metadata, this`store, this`clock
      ensures WellKept(metadata, store)
      ensures Shown(metadata, store) == Applied(old(Shown(metadata, store)), op)
      ensures old(clock) <= clock <= U64_MAX && op.version.timestamp <= clock
    {
      Witness(op.version.timestamp);
      var _ := ApplyOperation(op);
    }

    /** Applies operations in order, moving the clock past each. */
    method ApplyAll(ops: seq<Operation>)
      requires WellKept(metadata, store) && clock <= U64_MAX
      requires forall i :: 0 <= i < |ops| ==> ops[i].version.timestamp <= U64_MAX
      modifies this`metadata, this`store, this`clock
      ensures WellKept(metadata, store)
      ensures Shown(metadata, store) == AppliedAll(old(Shown(metadata, store)), ops, |ops|)
      ensures old(clock) <= clock <= U64_MAX && forall i :: 0 <= i < |ops| ==> ops[i].version.timestamp <= clock
    {
      ghost var start := Shown(metadata, store);
      for i := 0 to |ops|
        invariant WellKept(metadata, store)
        invariant Shown(metadata, store) == AppliedAll(start, ops, i)
        invariant old(clock) <= clock <= U64_MAX && forall j :: 0 <= j < i ==> ops[j].version.timestamp <= clock
      {
        Receive(ops[i]);
      }
    }

    /** Merging another replica's log joins the two logs, and applies what this one had not seen. */
    method Merge(other: seq<Operation>)
      requires Valid() && WithinClock(Ops(other), U64_MAX)
      modifies this
      ensures Valid()
      ensures Ops(log) <= old(Ops(log)) + Ops(other)
      ensures Latest(log) == Latest(Merged(old(log), other, |other|))
      ensures Abstract().shown == MergedShown(old(Abstract()).shown, Latest(log), FreshKeys(old(log), Latest(log)))
      ensures Coherent(old(Ops(log)) + Ops(other)) ==> Merges(old(Abstract()), Latest(other), Abstract())
    {
      var next, unseen := PlanMerge(log, other);
      ApplyAll(unseen);
      MergeSettles(old(log), other, next, unseen, old(clock), clock, old(Shown(metadata, store)));
      log := next;
    }

    /** Forgets the tombstones among `expired`, those older than the grace period. */
    method GcTombstones(expired: set<string>) returns (removed: nat)
      requires Valid()
      modifies this`metadata
      ensures Valid() && Abstract() == old(Abstract()).(shown := Forgotten(old(Abstract()).shown, expired))
      ensures removed == |old(metadata).Keys| - |metadata.Keys|
    {
      metadata, removed := ForgetTombstones(metadata, store, expired);
    }
  }

  method AppendIf(applied: bool, log: seq<Operation>, op: Operation, ghost clock: nat) returns (next: seq<Operation>)
    requires WithinClock(Ops(log), clock) && op.version.timestamp <= clock
    ensures WithinClock(Ops(next), clock)
    ensures if applied then Appended(Latest(log), op, Latest(next)) else next == log
    ensures Ops(next) <= Ops(log) + {op}
  {
    next := log;
    if applied {
      next := Append(log, op);
    }
  }

  /** `next` is the compacted merged log, and `unseen` are its operations that the local log had not seen. */
  ghost predicate MergePlan(local: seq<Operation>, other: seq<Operation>, next: seq<Operation>,
                            unseen: seq<Operation>) {
    var joined := Latest(Merged(local, other, |other|));
    && Lists(next, joined) && Ops(next) <= Ops(local) + Ops(other)
    && DistinctKeys(unseen) && FromView(unseen, joined) && KeysOf(unseen, |unseen|) == FreshKeys(local, joined)
    && forall op :: op in next ==> op in unseen || SeenIn(local, op.version)
  }

  method PlanMerge(local: seq<Operation>, other: seq<Operation>) returns (next: seq<Operation>, unseen: seq<Operation>)
    ensures MergePlan(local, other, next, unseen)
    ensures WithinClock(Ops(local), U64_MAX) && WithinClock(Ops(other), U64_MAX) ==>
              forall i :: 0 <= i < |unseen| ==> unseen[i].version.timestamp <= U64_MAX
  {
    var merged := MergeLogs(local, other);
    next := Compact(merged);
    CompactedLog(merged, next);
    MergedWithin(local, other);
    unseen := Unseen(next, local, Latest(merged));
    forall i | 0 <= i < |unseen|
      ensures unseen[i] in Ops(local) + Ops(other)
    {
      assert unseen[i] in unseen && unseen[i] in Ops(next);
    }
  }

  /** What the merged log and the applied operations amount to. */
  lemma MergeSettles(local: seq<Operation>, other: seq<Operation>, next: seq<Operation>, unseen: seq<Operation>,
                     clock: nat, clock': nat, shown: View)
    requires MergePlan(local, other, next, unseen)
    requires WithinClock(Ops(local), clock) && ViewWithin(shown, clock) && clock <= clock' <= U64_MAX
    requires forall i :: 0 <= i < |unseen| ==> unseen[i].version.timestamp <= clock'
    ensures Latest(next) == Latest(Merged(local, other, |other|)) && WithinClock(Ops(next), clock')
    ensures ViewWithin(AppliedAll(shown, unseen, |unseen|), clock')
    ensures AppliedAll(shown, unseen, |unseen|) == MergedShown(shown, Latest(next), FreshKeys(local, Latest(next)))
    ensures Coherent(Ops(local) + Ops(other)) ==>
              Merges(Node(clock, shown, Latest(local)), Latest(other),
                     Node(clock', AppliedAll(shown, unseen, |unseen|), Latest(next)))
  {
    var joined := Latest(Merged(local, other, |other|));
    ListedView(next, joined);
    AppliedAllIs(shown, joined, unseen, |unseen|);
    AppliedAllWithin(shown, unseen, |unseen|, clock');
    forall op | op in next
      ensures op.version.timestamp <= clock'
    {
      if op !in unseen {
        var l :| l in local && l.version == op.version;
        assert l in Ops(local);
      }
    }
    assert ViewWithin(joined, clock') by {
      forall k | k in joined
        ensures joined[k].version.timestamp <= clock'
      {
        assert joined[k] in next;
      }
    }
    if Coherent(Ops(local) + Ops(other)) {
      MergedView(local, other);
      MergedCoherent(local, other);
      LatestIsView(Merged(local, other, |other|));
      FreshIsNew(local, other, joined);
    }
  }

  method ForgetTombstones(metadata: Metadata, store: Store, expired: set<string>) returns (kept: Metadata, removed: nat)
    requires WellKept(metadata, store)
    ensures WellKept(kept, store) && Shown(kept, store) == Forgotten(Shown(metadata, store), expired)
    ensures removed == |metadata.Keys| - |kept.Keys|
  {
    kept, removed := metadata, 0;
    var rest := expired;
    while rest != {}
      invariant rest <= expired
      invariant forall k :: k in kept <==> k in metadata && (k in expired && k !in rest ==> k in store)
      invariant forall k :: k in kept ==> kept[k] == metadata[k]
      invariant removed == |metadata.Keys| - |kept.Keys|
    {
      var k :| k in rest;
      assert KeptAt(metadata, store, k);
      if k in kept && k !in store && Winner(kept[k]).tombstone {
        assert kept.Keys == (kept - {k}).Keys + {k};
        kept, removed := kept - {k}, removed + 1;
      }
      rest := rest - {k};
    }
    ForgottenIs(metadata, store, expired, kept);
  }

  lemma ForgottenIs(metadata: Metadata, store: Store, expired: set<string>, kept: Metadata)
    requires WellKept(metadata, store)
    requires forall k :: k in kept <==> k in metadata && (k in expired ==> k in store)
    requires forall k :: k in kept ==> kept[k] == metadata[k]
    ensures WellKept(kept, store) && Shown(kept, store) == Forgotten(Shown(metadata, store), expired)
  {
    forall k: string
      ensures KeptAt(kept, store, k)
    {
      assert KeptAt(metadata, store, k);
    }
    var before, after := Shown(metadata, store), Shown(kept, store);
    forall k | k in metadata
      ensures k in after <==> k in Forgotten(before, expired)
      ensures k in after ==> after[k] == before[k]
    {
      assert KeptAt(metadata, store, k);
      assert before[k].Remove? <==> k !in store;
    }
  }
}
