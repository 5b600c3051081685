/** Two maps that write one key: the later clock wins, and of equal clocks the higher replica. */
module CrdtTies {
  import opened Text
  import opened CrdtView
  import opened CrdtLog
  import opened CrdtMap
  import opened CrdtClones

  /** The greater of two operations, by timestamp and then by replica. */
  function Greater(a: Operation, b: Operation): Operation {
    var s, t := a.version, b.version;
    if s.timestamp < t.timestamp || (s.timestamp == t.timestamp && s.replica < t.replica) then b else a
  }

  /** The key is logged and shown with the operation. */
  ghost predicate Carried(node: Node, op: Operation) {
    op.key in node.log && node.log[op.key] == op && op.key in node.shown && node.shown[op.key] == op
  }

  lemma InsertLogged(before: Node, op: Operation, after: Node)
    requires op.Insert? && After(op.version, before.shown) && After(op.version, before.log) && Writes(before, op, after)
    ensures Carried(after, op)
  {
    AppendKeepsNewest(before.log, op, after.log, {});
  }

  /** A merge leaves the greater of two insertions at their key. */
  lemma GreaterStays(before: Node, message: View, after: Node, a: Operation, b: Operation)
    requires a.Insert? && b.Insert? && a.key == b.key && (a.version != b.version || a == b)
    requires Merges(before, message, after) && Carried(before, a) && b.key in message && message[b.key] == b
    ensures Carried(after, Greater(a, b))
  {
  }

  /** Versions identify operations, said of pairs. */
  ghost predicate Distinguished(ops: set<Operation>) {
    forall a, b {:trigger Distinct(a, b)} :: a in ops && b in ops ==> Distinct(a, b)
  }

  predicate Distinct(a: Operation, b: Operation) {
    a.version == b.version ==> a == b
  }

  lemma DistinguishedPart(part: set<Operation>, ops: set<Operation>)
    requires Distinguished(ops) && part <= ops
    ensures Coherent(part)
  {
    forall a, b | a in part && b in part && a.version == b.version
      ensures a == b
    {
      assert Distinct(a, b);
    }
  }

  lemma ViewsWithin(log: seq<Operation>, clock: nat)
    requires WithinClock(Ops(log), clock)
    ensures ViewWithin(Latest(log), clock)
  {
    LatestIsView(log);
    forall k | k in Latest(log)
      ensures Latest(log)[k].version.timestamp <= clock
    {
      assert Latest(log)[k] in Ops(log);
    }
  }

  /** A valid map that carries an insertion, and whose log is drawn from a set of operations. */
  ghost predicate Holding(a: CrdtOrMap, op: Operation, ops: set<Operation>)
    reads a
  {
    a.Valid() && op.Insert? && op in ops && Carried(a.Abstract(), op) && Ops(a.log) <= ops
  }

  lemma HeldIsStored(a: CrdtOrMap, op: Operation, ops: set<Operation>)
    requires Holding(a, op, ops)
    ensures op.key in a.store && a.store[op.key] == op.value
  {
    StoreIsContents(a.metadata, a.store);
  }

  method InsertAt(a: CrdtOrMap, key: string, value: Value, ghost ops: set<Operation>)
    requires a.Valid() && a.clock < U64_MAX && Ops(a.log) <= ops
    requires Insert(key, value, Version(a.clock + 1, a.replicaId)) in ops
    modifies a
    ensures Holding(a, Insert(key, value, Version(old(a.clock) + 1, a.replicaId)), ops)
  {
    ghost var before := a.Abstract();
    ViewsWithin(a.log, a.clock);
    NextIsAfter(before.shown, a.clock, a.replicaId);
    NextIsAfter(before.log, a.clock, a.replicaId);
    var _ := a.InsertEntry(key, value);
    InsertLogged(before, Insert(key, value, Version(a.clock, a.replicaId)), a.Abstract());
  }

  method MergeAt(a: CrdtOrMap, b: CrdtOrMap, ghost x: Operation, ghost y: Operation, ghost ops: set<Operation>)
    requires a != b && Holding(a, x, ops) && Holding(b, y, ops) && Distinguished(ops) && x.key == y.key
    modifies a
    ensures Holding(a, Greater(x, y), ops)
  {
    ghost var before, both, message := a.Abstract(), Ops(a.log) + Ops(b.log), Latest(b.log);
    DistinguishedPart(both, ops);
    assert Distinct(x, y);
    a.Merge(b.log);
    GreaterStays(before, message, a.Abstract(), x, y);
  }

  method Exchange(a: CrdtOrMap, b: CrdtOrMap, ghost x: Operation, ghost y: Operation, ghost ops: set<Operation>)
    requires a != b && Holding(a, x, ops) && Holding(b, y, ops) && Distinguished(ops) && x.key == y.key
    modifies a, b
    ensures Holding(a, Greater(x, y), ops) && Holding(b, Greater(y, Greater(x, y)), ops)
  {
    MergeAt(a, b, x, y, ops);
    MergeAt(b, a, y, Greater(x, y), ops);
  }

  /** The insertion that a map makes next. */
  function NextInsert(a: CrdtOrMap, key: string, value: Value): Operation
    reads a`clock
  {
    Insert(key, value, Version(a.clock + 1, a.replicaId))
  }

  method InsertBoth(a: CrdtOrMap, b: CrdtOrMap, key: string, v: Value, w: Value, ghost ops: set<Operation>)
    requires a != b && a.Valid() && b.Valid() && a.clock < U64_MAX && b.clock < U64_MAX
    requires Ops(a.log) <= ops && Ops(b.log) <= ops && NextInsert(a, key, v) in ops && NextInsert(b, key, w) in ops
    modifies a, b
    ensures Holding(a, old(NextInsert(a, key, v)), ops) && Holding(b, old(NextInsert(b, key, w)), ops)
  {
    InsertAt(a, key, v, ops);
    InsertAt(b, key, w, ops);
  }

  /**
   * Each of two maps inserts at a key, and they exchange logs: both then hold the value of the one whose clock was
   * ahead, or, if neither was, of the replica with the higher identifier.
   */
  method WriteBoth(a: CrdtOrMap, b: CrdtOrMap, key: string, v: Value, w: Value)
    requires a != b && a.Valid() && b.Valid() && a.clock < U64_MAX && b.clock < U64_MAX && a.replicaId != b.replicaId
    requires Distinguished(Ops(a.log) + Ops(b.log) + {NextInsert(a, key, v), NextInsert(b, key, w)})
    modifies a, b
    ensures var second := old(a.clock) < old(b.clock) || (old(a.clock) == old(b.clock) && a.replicaId < b.replicaId);
            var value := if second then w else v;
            && key in a.store && a.store[key] == value
            && key in b.store && b.store[key] == value
  {
    ghost var x, y := NextInsert(a, key, v), NextInsert(b, key, w);
    ghost var ops := Ops(a.log) + Ops(b.log) + {x, y};
    InsertBoth(a, b, key, v, w, ops);
    Exchange(a, b, x, y, ops);
    HeldIsStored(a, Greater(x, y), ops);
    HeldIsStored(b, Greater(y, Greater(x, y)), ops);
  }
}
