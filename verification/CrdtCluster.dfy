/**
 * Replicas that write locally and exchange logs by gossip.
 *
 * A replica is a node of `CrdtMap` with the operations it has come to know, whether or not compaction has
 * dropped them since. Its steps are the contracts of the map's methods. Snapshots may be delivered late,
 * twice, or never.
 */
module CrdtCluster {
  import opened Text
  import opened CrdtView
  import opened CrdtLog
  import opened CrdtMap

  datatype Snapshot = Snapshot(view: View, known: set<Operation>)
  datatype Replica = Replica(node: Node, known: set<Operation>)
  datatype Cluster = Cluster(replicas: seq<Replica>, sent: set<Snapshot>)

  datatype Event =
    | Local(at: nat, op: Operation, after: Node)
    | Collect(at: nat, expired: set<string>)
    | Share(at: nat)
    | Deliver(at: nat, message: Snapshot, after: Node)

  function Initial(n: nat): Cluster {
    Cluster(seq(n, i => Replica(EMPTY, {})), {})
  }

  function Log(r: Replica): Snapshot {
    Snapshot(r.node.log, r.known)
  }

  // ---------------------------------------------------------------- steps

  /** What the map's methods can do; `after` is the node as their contracts leave it. */
  ghost predicate Enabled(c: Cluster, e: Event) {
    && e.at < |c.replicas|
    && var node := c.replicas[e.at].node;
       match e
       case Local(at, op, after) => op.version == Version(NextTick(node.clock), at) && Writes(node, op, after)
       case Collect(_, _) => true
       case Share(_) => true
       case Deliver(_, message, after) => message in c.sent && Merges(node, message.view, after)
  }

  ghost function Step(c: Cluster, e: Event): Cluster
    requires Enabled(c, e)
  {
    var r := c.replicas[e.at];
    match e
    case Local(i, op, after) =>
      c.(replicas := c.replicas[i := Replica(after, KnownAfter(r, op))])
    case Collect(i, expired) =>
      c.(replicas := c.replicas[i := r.(node := r.node.(shown := Forgotten(r.node.shown, expired)))])
    case Share(i) => c.(sent := c.sent + {Log(r)})
    case Deliver(i, message, after) => c.(replicas := c.replicas[i := Replica(after, r.known + message.known)])
  }

  /** Checkable before a local operation: the clock has not reached its end and the log has room for the key. */
  ghost predicate Safe(c: Cluster, e: Event)
    requires Enabled(c, e)
  {
    e.Local? ==>
      var node := c.replicas[e.at].node;
      node.clock < U64_MAX && (Records(node.shown, e.op) ==> HasRoom(node.log, e.op.key))
  }

  ghost predicate Possible(c: Cluster, events: seq<Event>)
    decreases |events|
  {
    events != [] ==> Enabled(c, events[0]) && Safe(c, events[0]) && Possible(Step(c, events[0]), events[1..])
  }

  ghost function Run(c: Cluster, events: seq<Event>): Cluster
    requires Possible(c, events)
    decreases |events|
  {
    if events == [] then c else Run(Step(c, events[0]), events[1..])
  }

  // ---------------------------------------------------------------- nodes in step with their logs

  /** A key is shown as logged; a logged removal may have been forgotten or never recorded. */
  predicate InStepAt(shown: View, log: View, k: string) {
    if k in shown then k in log && log[k] == shown[k] else k in log ==> log[k].Remove?
  }

  ghost predicate InStep(node: Node) {
    forall k :: InStepAt(node.shown, node.log, k)
  }

  /** What a reader sees. */
  function Reads(node: Node): map<string, Value> {
    Contents(node.shown)
  }

  lemma InStepReads(node: Node)
    requires InStep(node)
    ensures Reads(node) == Contents(node.log)
  {
    assert forall k :: k in node.shown || k in node.log ==> InStepAt(node.shown, node.log, k);
  }

  lemma CollectInStep(node: Node, expired: set<string>)
    requires InStep(node)
    ensures InStep(node.(shown := Forgotten(node.shown, expired)))
  {
    forall k
      ensures InStepAt(Forgotten(node.shown, expired), node.log, k)
    {
      assert InStepAt(node.shown, node.log, k);
    }
  }

  lemma MergeInStepAt(shown: View, log: View, message: View, k: string)
    requires InStepAt(shown, log, k)
    ensures var joined := Join(log, message); InStepAt(MergedShown(shown, joined, NewKeys(log, joined)), joined, k)
  {
    var joined := Join(log, message);
    if k in joined && k in NewKeys(log, joined) {
      assert k in log ==> joined[k] == message[k] && log[k].version.Before(joined[k].version);
    }
  }

  lemma MergeInStep(before: Node, message: View, after: Node)
    requires InStep(before) && Merges(before, message, after)
    ensures InStep(after)
  {
    forall k
      ensures InStepAt(after.shown, after.log, k)
    {
      assert InStepAt(before.shown, before.log, k);
      MergeInStepAt(before.shown, before.log, message, k);
    }
  }

  /** A stamp past every timestamp of the log is recorded, and becomes its key's latest. */
  lemma FreshWrite(node: Node, known: set<Operation>, op: Operation)
    requires InStep(node) && IsViewOf(node.log, known) && WithinClock(known, node.clock)
    requires op.version.timestamp == node.clock + 1
    ensures Records(node.shown, op) <==> op.Insert? || op.key in node.shown
    ensures Update(node.log, op) == node.log[op.key := op]
  {
    assert InStepAt(node.shown, node.log, op.key);
    if op.key in node.log {
      assert node.log[op.key] in known;
    }
  }

  lemma WriteInStep(before: Node, known: set<Operation>, op: Operation, after: Node)
    requires InStep(before) && IsViewOf(before.log, known) && WithinClock(known, before.clock)
    requires before.clock < U64_MAX && op.version.timestamp == before.clock + 1 && Writes(before, op, after)
    requires Records(before.shown, op) ==> HasRoom(before.log, op.key)
    ensures InStep(after)
    ensures IsViewOf(after.log, if Records(before.shown, op) then known + {op} else known)
  {
    FreshWrite(before, known, op);
    UpdateIsView(before.log, known, op);
    forall k
      ensures InStepAt(after.shown, after.log, k)
    {
      assert InStepAt(before.shown, before.log, k);
    }
  }

  // ---------------------------------------------------------------- the invariant

  /** A replica's own operations carry distinct timestamps. */
  ghost predicate OwnCoherent(known: set<Operation>, self: nat) {
    forall a, b :: a in known && b in known && a.version.replica == self && a.version == b.version ==> a == b
  }

  /** Whoever made an operation knows it. */
  ghost predicate Authored(replicas: seq<Replica>, known: set<Operation>) {
    forall op :: op in known ==> op.version.replica < |replicas| && op in replicas[op.version.replica].known
  }

  /** The replica shows and logs exactly what the operations it knows amount to. */
  ghost predicate Faithful(r: Replica) {
    && InStep(r.node) && IsViewOf(r.node.log, r.known)
    && r.node.clock <= U64_MAX && WithinClock(r.known, r.node.clock)
  }

  ghost predicate GoodReplica(replicas: seq<Replica>, i: nat)
    requires i < |replicas|
  {
    Faithful(replicas[i]) && OwnCoherent(replicas[i].known, i) && Authored(replicas, replicas[i].known)
  }

  ghost predicate Invariant(c: Cluster) {
    && (forall i: nat :: i < |c.replicas| ==> GoodReplica(c.replicas, i))
    && (forall s :: s in c.sent ==> IsViewOf(s.view, s.known) && Authored(c.replicas, s.known))
  }

  /** Operations of known authors are identified by their versions. */
  lemma AuthoredCoherent(c: Cluster, ops: set<Operation>)
    requires Invariant(c) && Authored(c.replicas, ops)
    ensures Coherent(ops)
  {
    forall a, b | a in ops && b in ops && a.version == b.version
      ensures a == b
    {
      assert GoodReplica(c.replicas, a.version.replica);
    }
  }

  /** Knowing more keeps authorship. */
  lemma AuthoredGrows(replicas: seq<Replica>, i: nat, r: Replica, known: set<Operation>)
    requires i < |replicas| && replicas[i].known <= r.known && Authored(replicas, known)
    ensures Authored(replicas[i := r], known)
  {
  }

  /** Replacing one replica by a better informed good one keeps the invariant. */
  lemma ReplaceKeeps(c: Cluster, i: nat, r: Replica)
    requires Invariant(c) && i < |c.replicas| && c.replicas[i].known <= r.known
    requires Faithful(r) && OwnCoherent(r.known, i) && Authored(c.replicas[i := r], r.known)
    ensures Invariant(c.(replicas := c.replicas[i := r]))
  {
    var next := c.replicas[i := r];
    forall j: nat | j < |next|
      ensures GoodReplica(next, j)
    {
      if j != i {
        assert GoodReplica(c.replicas, j);
        AuthoredGrows(c.replicas, i, r, c.replicas[j].known);
      }
    }
    forall s | s in c.sent
      ensures Authored(next, s.known)
    {
      AuthoredGrows(c.replicas, i, r, s.known);
    }
  }

  function KnownAfter(r: Replica, op: Operation): set<Operation> {
    if Records(r.node.shown, op) then r.known + {op} else r.known
  }

  lemma WriteFaithful(r: Replica, i: nat, op: Operation, after: Node)
    requires Faithful(r) && r.node.clock < U64_MAX && Writes(r.node, op, after)
    requires op.version == Version(r.node.clock + 1, i) && (Records(r.node.shown, op) ==> HasRoom(r.node.log, op.key))
    ensures Faithful(Replica(after, KnownAfter(r, op)))
  {
    WriteInStep(r.node, r.known, op, after);
  }

  lemma WriteOwnCoherent(known: set<Operation>, i: nat, op: Operation, clock: nat)
    requires OwnCoherent(known, i) && WithinClock(known, clock) && op.version.timestamp == clock + 1
    ensures OwnCoherent(known + {op}, i)
  {
  }

  lemma WriteAuthored(replicas: seq<Replica>, i: nat, next: Replica, op: Operation)
    requires i < |replicas| && Authored(replicas, replicas[i].known) && op.version.replica == i
    requires next.known == KnownAfter(replicas[i], op)
    ensures Authored(replicas[i := next], next.known)
  {
    AuthoredGrows(replicas, i, next, replicas[i].known);
  }

  lemma LocalKeeps(c: Cluster, e: Event)
    requires Invariant(c) && Enabled(c, e) && Safe(c, e) && e.Local?
    ensures Invariant(Step(c, e))
  {
    var i, r := e.at, c.replicas[e.at];
    var next := Replica(e.after, KnownAfter(r, e.op));
    assert GoodReplica(c.replicas, i);
    WriteFaithful(r, i, e.op, e.after);
    WriteOwnCoherent(r.known, i, e.op, r.node.clock);
    WriteAuthored(c.replicas, i, next, e.op);
    ReplaceKeeps(c, i, next);
  }

  lemma CollectKeeps(c: Cluster, i: nat, expired: set<string>)
    requires Invariant(c) && i < |c.replicas|
    ensures Invariant(Step(c, Collect(i, expired)))
  {
    var r, next := c.replicas[i], Step(c, Collect(i, expired)).replicas[i];
    assert GoodReplica(c.replicas, i);
    CollectInStep(r.node, expired);
    AuthoredGrows(c.replicas, i, next, r.known);
    ReplaceKeeps(c, i, next);
  }

  /** A faithful replica stays faithful by merging a faithful snapshot. */
  lemma MergeFaithful(r: Replica, message: Snapshot, after: Node)
    requires Faithful(r) && IsViewOf(message.view, message.known) && Merges(r.node, message.view, after)
    ensures Faithful(Replica(after, r.known + message.known))
  {
    MergeInStep(r.node, message.view, after);
    JoinIsView(r.node.log, r.known, message.view, message.known);
    forall op | op in r.known + message.known
      ensures op.version.timestamp <= after.clock
    {
      assert op.key in after.log && !after.log[op.key].version.Before(op.version);
    }
  }

  lemma DeliverKeeps(c: Cluster, i: nat, message: Snapshot, after: Node)
    requires Invariant(c) && Enabled(c, Deliver(i, message, after))
    ensures Invariant(Step(c, Deliver(i, message, after)))
  {
    var r, next := c.replicas[i], Replica(after, c.replicas[i].known + message.known);
    assert GoodReplica(c.replicas, i);
    MergeFaithful(r, message, after);
    AuthoredGrows(c.replicas, i, next, r.known);
    AuthoredGrows(c.replicas, i, next, message.known);
    assert OwnCoherent(next.known, i) by {
      AuthoredCoherent(c, r.known + message.known);
    }
    ReplaceKeeps(c, i, next);
  }

  lemma ShareKeeps(c: Cluster, i: nat)
    requires Invariant(c) && i < |c.replicas|
    ensures Invariant(Step(c, Share(i)))
  {
    assert GoodReplica(c.replicas, i);
  }

  lemma StepKeeps(c: Cluster, e: Event)
    requires Invariant(c) && Enabled(c, e) && Safe(c, e)
    ensures Invariant(Step(c, e))
  {
    match e
    case Local(_, _, _) => LocalKeeps(c, e);
    case Collect(i, expired) => CollectKeeps(c, i, expired);
    case Share(i) => ShareKeeps(c, i);
    case Deliver(i, message, after) => DeliverKeeps(c, i, message, after);
  }

  lemma {:induction false} RunKeeps(c: Cluster, events: seq<Event>)
    requires Invariant(c) && Possible(c, events)
    ensures Invariant(Run(c, events))
    decreases |events|
  {
    if events == [] {
    } else {
      StepKeeps(c, events[0]);
      RunKeeps(Step(c, events[0]), events[1..]);
    }
  }

  /** The events lead by safe steps from `n` empty replicas to the cluster. */
  ghost predicate Reaches(n: nat, events: seq<Event>, c: Cluster) {
    Possible(Initial(n), events) && Run(Initial(n), events) == c
  }

  lemma ReachedGood(n: nat, events: seq<Event>, c: Cluster)
    requires Reaches(n, events, c)
    ensures Invariant(c)
  {
    RunKeeps(Initial(n), events);
  }

  /** What a merge asks of its input always holds: two logs never use one version for two operations. */
  lemma DeliveriesMergeable(n: nat, events: seq<Event>, c: Cluster, i: nat, message: Snapshot)
    requires Reaches(n, events, c) && i < |c.replicas| && message in c.sent
    ensures Coherent(c.replicas[i].known + message.known)
    ensures WithinClock(message.known, U64_MAX)
  {
    ReachedGood(n, events, c);
    assert GoodReplica(c.replicas, i);
    AuthoredCoherent(c, c.replicas[i].known + message.known);
    forall op | op in message.known
      ensures op.version.timestamp <= U64_MAX
    {
      assert GoodReplica(c.replicas, op.version.replica);
    }
  }

  // ---------------------------------------------------------------- convergence

  /** Strong eventual consistency: replicas that know the same operations show the same entries. */
  lemma SameKnowledgeSameEntries(n: nat, events: seq<Event>, c: Cluster, i: nat, j: nat)
    requires Reaches(n, events, c) && i < |c.replicas| && j < |c.replicas| && c.replicas[i].known == c.replicas[j].known
    ensures Reads(c.replicas[i].node) == Reads(c.replicas[j].node)
  {
    ReachedGood(n, events, c);
    assert GoodReplica(c.replicas, i) && GoodReplica(c.replicas, j);
    AuthoredCoherent(c, c.replicas[i].known);
    ViewUnique(c.replicas[i].node.log, c.replicas[j].node.log, c.replicas[i].known);
    InStepReads(c.replicas[i].node);
    InStepReads(c.replicas[j].node);
  }

  /** No operation is lost or overruled: what is shown for a key is its latest known operation. */
  lemma ReadsAreLatest(n: nat, events: seq<Event>, c: Cluster, i: nat, op: Operation)
    requires Reaches(n, events, c) && i < |c.replicas| && op in c.replicas[i].known
    requires forall o :: o in c.replicas[i].known && o.key == op.key ==> !op.version.Before(o.version)
    ensures var shown := Reads(c.replicas[i].node);
            if op.Insert? then op.key in shown && shown[op.key] == op.value else op.key !in shown
  {
    ReachedGood(n, events, c);
    assert GoodReplica(c.replicas, i);
    var r := c.replicas[i];
    AuthoredCoherent(c, r.known);
    assert r.node.log[op.key] in r.known;
    VersionsTotal(r.node.log[op.key].version, op.version);
    InStepReads(r.node);
  }

  /** The node merges the snapshots one after the other. */
  ghost predicate Absorbs(node: Node, messages: seq<Snapshot>, after: Node)
    decreases |messages|
  {
    if messages == [] then after == node
    else exists mid :: Merges(node, messages[0].view, mid) && Absorbs(mid, messages[1..], after)
  }

  /** Everything known by some of the snapshots. */
  function KnownBy(messages: seq<Snapshot>): set<Operation> {
    if messages == [] then {} else messages[0].known + KnownBy(messages[1..])
  }

  lemma {:induction false} KnownByMembers(messages: seq<Snapshot>, op: Operation)
    ensures op in KnownBy(messages) <==> exists m :: m in messages && op in m.known
  {
    if messages == [] {
    } else {
      KnownByMembers(messages[1..], op);
      assert messages == [messages[0]] + messages[1..];
    }
  }

  lemma {:induction false} AbsorbFaithful(r: Replica, messages: seq<Snapshot>, after: Node)
    requires Faithful(r) && Absorbs(r.node, messages, after) && forall m :: m in messages ==> IsViewOf(m.view, m.known)
    ensures Faithful(Replica(after, r.known + KnownBy(messages)))
    decreases |messages|
  {
    if messages == [] {
      assert r.known + {} == r.known;
    } else {
      var mid :| Merges(r.node, messages[0].view, mid) && Absorbs(mid, messages[1..], after);
      MergeFaithful(r, messages[0], mid);
      AbsorbFaithful(Replica(mid, r.known + messages[0].known), messages[1..], after);
      assert r.known + messages[0].known + KnownBy(messages[1..]) == r.known + KnownBy(messages);
    }
  }

  lemma SameKnowledge(a: seq<Snapshot>, b: seq<Snapshot>, own: Snapshot, other: Snapshot)
    requires own in a && other in b && forall m :: m in a <==> m in b
    ensures own.known + KnownBy(a) == other.known + KnownBy(b)
  {
    forall op
      ensures op in own.known + KnownBy(a) <==> op in other.known + KnownBy(b)
    {
      KnownByMembers(a, op);
      KnownByMembers(b, op);
    }
  }

  lemma AbsorbedAuthored(c: Cluster, messages: seq<Snapshot>)
    requires Invariant(c) && forall m :: m in messages ==> m in c.sent
    ensures Authored(c.replicas, KnownBy(messages))
  {
    forall op | op in KnownBy(messages)
      ensures op.version.replica < |c.replicas| && op in c.replicas[op.version.replica].known
    {
      KnownByMembers(messages, op);
    }
  }

  /**
   * Gossip converges in any order and with any repetition: two replicas that have each merged the same
   * snapshots, their own among them, show the same entries.
   */
  lemma ExchangeConverges(n: nat, events: seq<Event>, c: Cluster, i: nat, j: nat, atI: seq<Snapshot>,
                          atJ: seq<Snapshot>, a: Node, b: Node)
    requires Reaches(n, events, c) && i < |c.replicas| && j < |c.replicas|
    requires (forall m :: m in atI <==> m in atJ) && (forall m :: m in atI ==> m in c.sent)
    requires Log(c.replicas[i]) in atI && Log(c.replicas[j]) in atJ
    requires Absorbs(c.replicas[i].node, atI, a) && Absorbs(c.replicas[j].node, atJ, b)
    ensures Reads(a) == Reads(b)
  {
    ReachedGood(n, events, c);
    var ri, rj := c.replicas[i], c.replicas[j];
    assert GoodReplica(c.replicas, i) && GoodReplica(c.replicas, j);
    AbsorbFaithful(ri, atI, a);
    AbsorbFaithful(rj, atJ, b);
    SameKnowledge(atI, atJ, Log(ri), Log(rj));
    AbsorbedAuthored(c, atI);
    AuthoredCoherent(c, ri.known + KnownBy(atI));
    ViewUnique(a.log, b.log, ri.known + KnownBy(atI));
    InStepReads(a);
    InStepReads(b);
  }

  // ---------------------------------------------------------------- a log that overflows

  function ReadAt(view: View, k: string): Option<Value> {
    if k in view && view[k].Insert? then Some(view[k].value) else None
  }

  /** An operation of replica `i` that is recorded although its log has no room; `a` is the node after it. */
  ghost predicate Overflows(c: Cluster, i: nat, op: Operation, a: Node)
    requires i < |c.replicas|
  {
    var r := c.replicas[i].node;
    && r.clock < U64_MAX && op.version == Version(r.clock + 1, i)
    && Records(r.shown, op) && !HasRoom(r.log, op.key) && Writes(r, op, a)
  }

  /** The keys that were cut from the log. */
  function CutKeys(before: Node, op: Operation, after: Node): set<string> {
    before.log.Keys + {op.key} - after.log.Keys
  }

  /** After the cut the node is in step with its log except at the cut keys, where it still shows what it had. */
  lemma OverflowStep(c: Cluster, i: nat, op: Operation, a: Node, k: string)
    requires Invariant(c) && i < |c.replicas| && Overflows(c, i, op, a)
    ensures k !in CutKeys(c.replicas[i].node, op, a) ==> InStepAt(a.shown, a.log, k)
    ensures k in a.log ==> a.log[k] in c.replicas[i].known + {op}
    ensures k in a.shown ==> a.shown[k] in c.replicas[i].known + {op}
  {
    var r := c.replicas[i];
    assert GoodReplica(c.replicas, i);
    FreshWrite(r.node, r.known, op);
    assert InStepAt(r.node.shown, r.node.log, k);
    assert k in r.node.log ==> r.node.log[k] in r.known;
  }

  lemma CoherentWith(known: set<Operation>, op: Operation)
    requires Coherent(known) && forall o :: o in known ==> o.version != op.version
    ensures Coherent(known + {op})
  {
  }

  /** A new stamp of replica `i` is nowhere in use. */
  lemma StampUnused(c: Cluster, i: nat, j: nat, op: Operation)
    requires Invariant(c) && i < |c.replicas| && j < |c.replicas|
    requires op.version == Version(c.replicas[i].node.clock + 1, i)
    ensures Coherent(c.replicas[i].known + c.replicas[j].known + {op})
  {
    var known := c.replicas[i].known + c.replicas[j].known;
    assert GoodReplica(c.replicas, i) && GoodReplica(c.replicas, j);
    AuthoredCoherent(c, known);
    forall o | o in known
      ensures o.version != op.version
    {
      assert o.version.replica == i ==> o in c.replicas[i].known;
    }
    CoherentWith(known, op);
  }

  /** Where the writer is in step with its log, the exchange leaves it reading what the peer reads. */
  lemma UncutReads(shown: View, log: View, peer: View, ops: set<Operation>, k: string)
    requires InStepAt(shown, log, k) && Coherent(ops) && (k in log ==> log[k] in ops) && (k in peer ==> peer[k] in ops)
    ensures var there := Join(peer, log);
            var back := Join(log, there);
            ReadAt(MergedShown(shown, back, NewKeys(log, back)), k) == ReadAt(there, k)
  {
    var there := Join(peer, log);
    var back := Join(log, there);
    MergeInStepAt(shown, log, there, k);
    if k in log && k in peer {
      VersionsTotal(log[k].version, peer[k].version);
    }
    assert k in there <==> k in back;
    assert k in there ==> there[k] == back[k];
  }

  /** Where the log was cut, the writer goes on showing the later of its own operation and the peer's. */
  lemma CutReads(shown: View, log: View, peer: View, ops: set<Operation>, k: string)
    requires k !in log && Coherent(ops) && (k in shown ==> shown[k] in ops) && (k in peer ==> peer[k] in ops)
    ensures var there := Join(peer, log);
            var back := Join(log, there);
            && ReadAt(MergedShown(shown, back, NewKeys(log, back)), k) == ReadAt(Join(shown, peer), k)
            && ReadAt(there, k) == ReadAt(peer, k)
  {
    var there := Join(peer, log);
    var back := Join(log, there);
    assert k in there <==> k in peer;
    assert k in back <==> k in peer;
    if k in peer {
      assert there[k] == peer[k] && back[k] == peer[k] && k in NewKeys(log, back);
      if k in shown {
        VersionsTotal(shown[k].version, peer[k].version);
      }
    } else {
      assert !Arrives(shown, back, NewKeys(log, back), k);
    }
  }

  /**
   * The writer of a log that overflowed exchanges logs with a peer. They then show the same entries exactly if,
   * at every key that was cut, what the writer shows adds nothing for readers to what the peer had.
   */
  lemma OverflowExchangeIff(n: nat, events: seq<Event>, c: Cluster, i: nat, j: nat, op: Operation, a: Node, b: Node,
                            a': Node)
    requires Reaches(n, events, c) && i < |c.replicas| && j < |c.replicas| && Overflows(c, i, op, a)
    requires Merges(c.replicas[j].node, a.log, b) && Merges(a, b.log, a')
    ensures Reads(a') == Reads(b)
            <==> var peer := c.replicas[j].node.log;
                 forall k :: k in CutKeys(c.replicas[i].node, op, a) ==>
                     ReadAt(Join(a.shown, peer), k) == ReadAt(peer, k)
  {
    ReachedGood(n, events, c);
    var peer, cut := c.replicas[j].node.log, CutKeys(c.replicas[i].node, op, a);
    forall k
      ensures k !in cut ==> ReadAt(a'.shown, k) == ReadAt(b.shown, k)
      ensures k in cut ==> ReadAt(a'.shown, k) == ReadAt(Join(a.shown, peer), k)
      ensures k in cut ==> ReadAt(b.shown, k) == ReadAt(peer, k)
    {
      OverflowAt(c, i, j, op, a, b, a', k);
    }
    SameReads(a', b, cut);
  }

  /** Two nodes read the same exactly if they do at every key where it is in question. */
  lemma SameReads(a: Node, b: Node, where: set<string>)
    requires forall k :: k !in where ==> ReadAt(a.shown, k) == ReadAt(b.shown, k)
    ensures Reads(a) == Reads(b) <==> forall k :: k in where ==> ReadAt(a.shown, k) == ReadAt(b.shown, k)
  {
    assert forall k :: k in Reads(a) ==> ReadAt(a.shown, k) == Some(Reads(a)[k]);
    assert forall k :: k in Reads(b) ==> ReadAt(b.shown, k) == Some(Reads(b)[k]);
    if forall k :: k in where ==> ReadAt(a.shown, k) == ReadAt(b.shown, k) {
      forall k
        ensures (k in Reads(a) <==> k in Reads(b)) && (k in Reads(a) ==> Reads(a)[k] == Reads(b)[k])
      {
        assert ReadAt(a.shown, k) == ReadAt(b.shown, k);
      }
    }
    if Reads(a) == Reads(b) {
      forall k
        ensures ReadAt(a.shown, k) == ReadAt(b.shown, k)
      {
        assert k in Reads(a) <==> k in Reads(b);
      }
    }
  }

  lemma OverflowAt(c: Cluster, i: nat, j: nat, op: Operation, a: Node, b: Node, a': Node, k: string)
    requires Invariant(c) && i < |c.replicas| && j < |c.replicas| && Overflows(c, i, op, a)
    requires Merges(c.replicas[j].node, a.log, b) && Merges(a, b.log, a')
    ensures ReadAt(b.shown, k) == ReadAt(b.log, k)
    ensures k !in CutKeys(c.replicas[i].node, op, a) ==> ReadAt(a'.shown, k) == ReadAt(b.shown, k)
    ensures k in CutKeys(c.replicas[i].node, op, a) ==>
              var peer := c.replicas[j].node.log;
              ReadAt(a'.shown, k) == ReadAt(Join(a.shown, peer), k) && ReadAt(b.shown, k) == ReadAt(peer, k)
  {
    var r := c.replicas[j];
    var peer, ops := r.node.log, c.replicas[i].known + r.known + {op};
    assert GoodReplica(c.replicas, j);
    assert k in peer ==> peer[k] in r.known;
    OverflowStep(c, i, op, a, k);
    StampUnused(c, i, j, op);
    MergeInStep(r.node, a.log, b);
    assert InStepAt(b.shown, b.log, k);
    if k in CutKeys(c.replicas[i].node, op, a) {
      CutReads(a.shown, a.log, peer, ops, k);
    } else {
      UncutReads(a.shown, a.log, peer, ops, k);
    }
  }

  /** In particular, a live key that was cut and that the peer has never heard of is missing there for good. */
  lemma OverflowLosesKey(n: nat, events: seq<Event>, c: Cluster, i: nat, j: nat, op: Operation, a: Node, b: Node,
                         a': Node, k: string)
    requires Reaches(n, events, c) && i < |c.replicas| && j < |c.replicas| && Overflows(c, i, op, a)
    requires Merges(c.replicas[j].node, a.log, b) && Merges(a, b.log, a')
    requires k in CutKeys(c.replicas[i].node, op, a) && k in Reads(a) && k !in c.replicas[j].node.log
    ensures k in Reads(a') && k !in Reads(b)
  {
    ReachedGood(n, events, c);
    OverflowAt(c, i, j, op, a, b, a', k);
  }

  /** A cut key whose tombstone was collected, while the peer logs an insertion from before the removal. */
  predicate Undone(before: Node, op: Operation, after: Node, peer: View, k: string) {
    var all := Update(before.log, op);
    && k in CutKeys(before, op, after) && k in all && k !in after.shown
    && k in peer && peer[k].Insert? && peer[k].version.Before(all[k].version)
  }

  /** What is shown is in step with the log as it would be without the cut. */
  lemma InStepBeforeCut(c: Cluster, i: nat, op: Operation, a: Node, k: string)
    requires Invariant(c) && i < |c.replicas| && Overflows(c, i, op, a)
    ensures var all := Update(c.replicas[i].node.log, op);
            && InStepAt(a.shown, all, k) && (k in all ==> all[k] in c.replicas[i].known + {op})
            && (k in CutKeys(c.replicas[i].node, op, a) <==> k in all && k !in a.log)
            && (k in a.log ==> k in all && a.log[k] == all[k])
  {
    var r := c.replicas[i];
    assert GoodReplica(c.replicas, i);
    FreshWrite(r.node, r.known, op);
    assert InStepAt(r.node.shown, r.node.log, k);
    assert k in r.node.log ==> r.node.log[k] in r.known;
  }

  lemma CutLatest(shown: View, all: View, peer: View, ops: set<Operation>, k: string)
    requires InStepAt(shown, all, k) && Coherent(ops) && k in all && all[k] in ops && (k in peer ==> peer[k] in ops)
    ensures ReadAt(Join(shown, peer), k) == ReadAt(Join(all, peer), k)
            <==> !(k !in shown && k in peer && peer[k].Insert? && peer[k].version.Before(all[k].version))
  {
    if k in peer {
      VersionsTotal(all[k].version, peer[k].version);
    }
  }

  lemma UncutLatest(log: View, all: View, peer: View, ops: set<Operation>, k: string)
    requires (k in log <==> k in all) && (k in all ==> log[k] == all[k])
    requires Coherent(ops) && (k in all ==> all[k] in ops) && (k in peer ==> peer[k] in ops)
    ensures ReadAt(Join(peer, log), k) == ReadAt(Join(all, peer), k)
  {
    if k in all && k in peer {
      VersionsTotal(all[k].version, peer[k].version);
    }
  }

  /**
   * After the exchange the writer reads, at every key, the latest operation that either had known before the cut,
   * unless a removal is undone. Which keys those are can be told before the logs are exchanged.
   */
  lemma OverflowReadsLatestIff(n: nat, events: seq<Event>, c: Cluster, i: nat, j: nat, op: Operation, a: Node, b: Node,
                               a': Node, k: string)
    requires Reaches(n, events, c) && i < |c.replicas| && j < |c.replicas| && Overflows(c, i, op, a)
    requires Merges(c.replicas[j].node, a.log, b) && Merges(a, b.log, a')
    ensures var peer := c.replicas[j].node.log;
            ReadAt(a'.shown, k) == ReadAt(Join(Update(c.replicas[i].node.log, op), peer), k)
            <==> !Undone(c.replicas[i].node, op, a, peer, k)
  {
    ReachedGood(n, events, c);
    assert GoodReplica(c.replicas, j);
    OverflowAt(c, i, j, op, a, b, a', k);
    InStepBeforeCut(c, i, op, a, k);
    StampUnused(c, i, j, op);
    var all, peer := Update(c.replicas[i].node.log, op), c.replicas[j].node.log;
    var ops := c.replicas[i].known + c.replicas[j].known + {op};
    if k in CutKeys(c.replicas[i].node, op, a) {
      CutLatest(a.shown, all, peer, ops, k);
    } else {
      UncutLatest(a.log, all, peer, ops, k);
    }
  }

  /** Then the writer shows an entry again that it had removed, and both logs' latest operation is the removal. */
  lemma RemovalUndone(n: nat, events: seq<Event>, c: Cluster, i: nat, j: nat, op: Operation, a: Node, b: Node,
                      a': Node, k: string)
    requires Reaches(n, events, c) && i < |c.replicas| && j < |c.replicas| && Overflows(c, i, op, a)
    requires Merges(c.replicas[j].node, a.log, b) && Merges(a, b.log, a')
    requires Undone(c.replicas[i].node, op, a, c.replicas[j].node.log, k)
    ensures k !in Reads(a) && k in Reads(a')
    ensures k !in Contents(Join(Update(c.replicas[i].node.log, op), c.replicas[j].node.log))
  {
    OverflowReadsLatestIff(n, events, c, i, j, op, a, b, a', k);
    ReachedGood(n, events, c);
    InStepBeforeCut(c, i, op, a, k);
    VersionsTotal(Update(c.replicas[i].node.log, op)[k].version, c.replicas[j].node.log[k].version);
  }
}
