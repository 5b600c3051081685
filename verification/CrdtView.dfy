/**
 * Operations of the replicated map and what a set of them amounts to.
 *
 * A view keeps, for every key, the operation with the greatest version. Everything a replica stores
 * follows from the view of the operations it knows, so merging is a join of views.
 */
module CrdtView {

  newtype byte = x: int | 0 <= x < 256
  type Value = seq<byte>

  /** Replica identifiers are UUIDs; only their order matters here. */
  type ReplicaId = nat

  /** A Lamport timestamp with the replica that took it: the identity of an operation. */
  datatype Version = Version(timestamp: nat, replica: ReplicaId) {
    predicate Before(other: Version) {
      timestamp < other.timestamp || (timestamp == other.timestamp && replica < other.replica)
    }
  }

  datatype Operation = Insert(key: string, value: Value, version: Version) | Remove(key: string, version: Version)

  type View = m: map<string, Operation> | forall k :: k in m ==> m[k].key == k witness map[]

  /** One step of `latest_operations_by_key`: the later version stays. */
  function Update(view: View, op: Operation): View {
    if op.key in view && !view[op.key].version.Before(op.version) then view else view[op.key := op]
  }

  function Latest(log: seq<Operation>): View {
    if log == [] then map[] else Update(Latest(log[..|log| - 1]), log[|log| - 1])
  }

  function Ops(log: seq<Operation>): set<Operation> {
    set op | op in log
  }

  /** Per key the later of two views' operations. */
  function Join(a: View, b: View): View {
    map k | k in a.Keys + b.Keys :: if k in a && (k !in b || !a[k].version.Before(b[k].version)) then a[k] else b[k]
  }

  /** The key-value pairs a reader sees. */
  function Contents(view: View): map<string, Value> {
    map k | k in view && view[k].Insert? :: view[k].value
  }

  // ---------------------------------------------------------------- what a view is

  /** Versions identify operations. */
  ghost predicate Coherent(ops: set<Operation>) {
    forall a, b :: a in ops && b in ops && a.version == b.version ==> a == b
  }

  /** `view` keeps, for each key some operation is about, one that no other comes after. */
  ghost predicate IsViewOf(view: View, ops: set<Operation>) {
    && (forall op :: op in ops ==> op.key in view && !view[op.key].version.Before(op.version))
    && (forall k :: k in view ==> view[k] in ops)
  }

  lemma VersionsTotal(a: Version, b: Version)
    ensures a.Before(b) || b.Before(a) || a == b
    ensures !(a.Before(b) && b.Before(a))
  {
  }

  /** Coherent operations have only one view. */
  lemma ViewUnique(v: View, w: View, ops: set<Operation>)
    requires Coherent(ops) && IsViewOf(v, ops) && IsViewOf(w, ops)
    ensures v == w
  {
    forall k | k in v
      ensures k in w && v[k] == w[k]
    {
      assert v[k] in ops && w[k] in ops;
      VersionsTotal(v[k].version, w[k].version);
    }
    forall k | k in w
      ensures k in v
    {
      assert w[k] in ops;
    }
  }

  lemma UpdateIsView(view: View, ops: set<Operation>, op: Operation)
    requires IsViewOf(view, ops)
    ensures IsViewOf(Update(view, op), ops + {op})
  {
    var next := Update(view, op);
    forall o | o in ops + {op}
      ensures o.key in next && !next[o.key].version.Before(o.version)
    {
      if o in ops {
        assert o.key in view && !view[o.key].version.Before(o.version);
      }
    }
  }

  lemma {:induction false} LatestIsView(log: seq<Operation>)
    ensures IsViewOf(Latest(log), Ops(log))
  {
    if log == [] {
    } else {
      var init, last := log[..|log| - 1], log[|log| - 1];
      LatestIsView(init);
      UpdateIsView(Latest(init), Ops(init), last);
      assert log == init + [last];
      assert Ops(log) == Ops(init) + {last};
    }
  }

  /** Joining views is viewing the union. */
  lemma JoinIsView(a: View, opsA: set<Operation>, b: View, opsB: set<Operation>)
    requires IsViewOf(a, opsA) && IsViewOf(b, opsB)
    ensures IsViewOf(Join(a, b), opsA + opsB)
  {
    var j := Join(a, b);
    forall op | op in opsA + opsB
      ensures op.key in j && !j[op.key].version.Before(op.version)
    {
      if op in opsA {
        assert op.key in a && !a[op.key].version.Before(op.version);
      }
      if op in opsB {
        assert op.key in b && !b[op.key].version.Before(op.version);
      }
    }
  }

  // ---------------------------------------------------------------- join-semilattice laws

  lemma JoinCommutes(a: View, b: View)
    requires Coherent(a.Values + b.Values)
    ensures Join(a, b) == Join(b, a)
  {
    forall k | k in a && k in b
      ensures Join(a, b)[k] == Join(b, a)[k]
    {
      assert a[k] in a.Values && b[k] in b.Values;
      VersionsTotal(a[k].version, b[k].version);
    }
  }

  lemma JoinAssociates(a: View, b: View, c: View)
    ensures Join(Join(a, b), c) == Join(a, Join(b, c))
  {
    var l, r := Join(Join(a, b), c), Join(a, Join(b, c));
    assert l.Keys == r.Keys;
    forall k | k in l
      ensures l[k] == r[k]
    {
      JoinAssociatesAt(a, b, c, k);
    }
  }

  lemma JoinAssociatesAt(a: View, b: View, c: View, k: string)
    requires k in a.Keys + b.Keys + c.Keys
    ensures Join(Join(a, b), c)[k] == Join(a, Join(b, c))[k]
  {
    var ab, bc := Join(a, b), Join(b, c);
    assert k in ab <==> k in a || k in b;
    assert k in bc <==> k in b || k in c;
    if k in a && k in b && k in c {
      assert ab[k] == if a[k].version.Before(b[k].version) then b[k] else a[k];
      assert bc[k] == if b[k].version.Before(c[k].version) then c[k] else b[k];
    }
  }

  lemma JoinIdempotent(a: View)
    ensures Join(a, a) == a
  {
    forall k | k in a
      ensures Join(a, a)[k] == a[k]
    {
      VersionsTotal(a[k].version, a[k].version);
    }
  }
}
