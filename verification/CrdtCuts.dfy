/**
 * Replicas whose logs are cut, any number of times. A replica then knows more than its log holds: what it wrote and
 * what arrived in the logs it merged. It shows the latest operation it knows of a key until a removal that it has both
 * forgotten and lost from its log is undone by an older insertion.
 */
module CrdtCuts {
  import opened Text
  import opened CrdtView
  import opened CrdtLog
  import opened CrdtMap
  import opened CrdtCluster

  // ---------------------------------------------------------------- the latest of what is known

  lemma {:induction false} ViewExists(ops: set<Operation>)
    ensures exists v :: IsViewOf(v, ops)
    decreases |ops|
  {
    if ops == {} {
      assert IsViewOf(map[], ops);
    } else {
      var op :| op in ops;
      ViewExists(ops - {op});
      var v :| IsViewOf(v, ops - {op});
      UpdateIsView(v, ops - {op}, op);
      assert ops - {op} + {op} == ops;
    }
  }

  /** For each key that some operation is about, one that no other comes after. */
  ghost function ViewOf(ops: set<Operation>): (v: View)
    ensures IsViewOf(v, ops)
  {
    ViewExists(ops);
    var v :| IsViewOf(v, ops);
    v
  }

  lemma ViewOfJoined(a: set<Operation>, v: View, b: set<Operation>)
    requires Coherent(a + b) && IsViewOf(v, b)
    ensures ViewOf(a + b) == Join(ViewOf(a), v)
  {
    JoinIsView(ViewOf(a), a, v, b);
    ViewUnique(ViewOf(a + b), Join(ViewOf(a), v), a + b);
  }

  lemma ViewOfUpdated(a: set<Operation>, op: Operation)
    requires Coherent(a + {op})
    ensures ViewOf(a + {op}) == Update(ViewOf(a), op)
  {
    UpdateIsView(ViewOf(a), a, op);
    ViewUnique(ViewOf(a + {op}), Update(ViewOf(a), op), a + {op});
  }

  lemma ValuesView(view: View)
    ensures IsViewOf(view, view.Values)
  {
  }

  // ---------------------------------------------------------------- steps

  /** Local operations only need a clock that has not reached its end. */
  ghost predicate CanHappen(c: Cluster, e: Event) {
    Enabled(c, e) && (e.Local? ==> c.replicas[e.at].node.clock < U64_MAX)
  }

  /** As in a cluster without cuts, but who merges a log learns what is in it, not what was cut from it. */
  ghost function Next(c: Cluster, e: Event): Cluster
    requires Enabled(c, e)
  {
    if e.Share? then
      var log := c.replicas[e.at].node.log;
      c.(sent := c.sent + {Snapshot(log, log.Values)})
    else Step(c, e)
  }

  ghost predicate CanRun(c: Cluster, events: seq<Event>)
    decreases |events|
  {
    events != [] ==> CanHappen(c, events[0]) && CanRun(Next(c, events[0]), events[1..])
  }

  ghost function End(c: Cluster, events: seq<Event>): (end: Cluster)
    requires CanRun(c, events)
    ensures |end.replicas| == |c.replicas|
    decreases |events|
  {
    if events == [] then c else End(Next(c, events[0]), events[1..])
  }

  // ---------------------------------------------------------------- what every step keeps

  ghost predicate Within(view: View, ops: set<Operation>) {
    forall k :: k in view ==> view[k] in ops
  }

  ghost predicate Sound(r: Replica) {
    && Within(r.node.log, r.known) && Within(r.node.shown, r.known)
    && r.node.clock <= U64_MAX && WithinClock(r.known, r.node.clock)
  }

  ghost predicate SoundReplica(replicas: seq<Replica>, i: nat)
    requires i < |replicas|
  {
    Sound(replicas[i]) && OwnCoherent(replicas[i].known, i) && Authored(replicas, replicas[i].known)
  }

  ghost predicate SoundCluster(c: Cluster) {
    && (forall i: nat :: i < |c.replicas| ==> SoundReplica(c.replicas, i))
    && (forall s :: s in c.sent ==> IsViewOf(s.view, s.known) && Authored(c.replicas, s.known))
  }

  lemma SoundCoherent(c: Cluster, ops: set<Operation>)
    requires SoundCluster(c) && Authored(c.replicas, ops)
    ensures Coherent(ops)
  {
    forall a, b | a in ops && b in ops && a.version == b.version
      ensures a == b
    {
      assert SoundReplica(c.replicas, a.version.replica);
    }
  }

  lemma ReplaceSound(c: Cluster, i: nat, r: Replica)
    requires SoundCluster(c) && i < |c.replicas| && c.replicas[i].known <= r.known
    requires Sound(r) && OwnCoherent(r.known, i) && Authored(c.replicas[i := r], r.known)
    ensures SoundCluster(c.(replicas := c.replicas[i := r]))
  {
    var next := c.replicas[i := r];
    forall j: nat | j < |next|
      ensures SoundReplica(next, j)
    {
      if j != i {
        assert SoundReplica(c.replicas, j);
        AuthoredGrows(c.replicas, i, r, c.replicas[j].known);
      }
    }
    forall s | s in c.sent
      ensures Authored(next, s.known)
    {
      AuthoredGrows(c.replicas, i, r, s.known);
    }
  }

  lemma WriteSound(r: Replica, op: Operation, after: Node)
    requires Sound(r) && r.node.clock < U64_MAX && op.version.timestamp == r.node.clock + 1 && Writes(r.node, op, after)
    ensures Sound(Replica(after, KnownAfter(r, op)))
  {
    if Records(r.node.shown, op) {
      forall k | k in after.log
        ensures after.log[k] in r.known + {op}
      {
        assert k in Update(r.node.log, op) && after.log[k] == Update(r.node.log, op)[k];
      }
    }
  }

  lemma MergeSound(r: Replica, message: Snapshot, after: Node)
    requires Sound(r) && IsViewOf(message.view, message.known) && Merges(r.node, message.view, after)
    ensures Sound(Replica(after, r.known + message.known))
  {
    forall op | op in message.known
      ensures op.version.timestamp <= after.clock
    {
      assert op.key in after.log && !after.log[op.key].version.Before(op.version);
    }
  }

  lemma LocalSound(c: Cluster, e: Event)
    requires SoundCluster(c) && CanHappen(c, e) && e.Local?
    ensures SoundCluster(Next(c, e))
  {
    var i, r := e.at, c.replicas[e.at];
    var next := Replica(e.after, KnownAfter(r, e.op));
    assert SoundReplica(c.replicas, i);
    WriteSound(r, e.op, e.after);
    WriteOwnCoherent(r.known, i, e.op, r.node.clock);
    WriteAuthored(c.replicas, i, next, e.op);
    ReplaceSound(c, i, next);
  }

  lemma DeliverSound(c: Cluster, e: Event)
    requires SoundCluster(c) && CanHappen(c, e) && e.Deliver?
    ensures SoundCluster(Next(c, e))
    ensures Coherent(c.replicas[e.at].known + e.message.known)
  {
    var i, r := e.at, c.replicas[e.at];
    var next := Replica(e.after, r.known + e.message.known);
    assert SoundReplica(c.replicas, i);
    MergeSound(r, e.message, e.after);
    AuthoredGrows(c.replicas, i, next, r.known);
    AuthoredGrows(c.replicas, i, next, e.message.known);
    SoundCoherent(c, r.known + e.message.known);
    ReplaceSound(c, i, next);
  }

  lemma NextSound(c: Cluster, e: Event)
    requires SoundCluster(c) && CanHappen(c, e)
    ensures SoundCluster(Next(c, e))
  {
    var r := c.replicas[e.at];
    assert SoundReplica(c.replicas, e.at);
    match e
    case Local(_, _, _) => LocalSound(c, e);
    case Deliver(_, _, _) => DeliverSound(c, e);
    case Share(_) => ValuesView(r.node.log);
    case Collect(i, expired) =>
      AuthoredGrows(c.replicas, i, Next(c, e).replicas[i], r.known);
      ReplaceSound(c, i, Next(c, e).replicas[i]);
  }

  lemma {:induction false} EndSound(c: Cluster, events: seq<Event>)
    requires SoundCluster(c) && CanRun(c, events)
    ensures SoundCluster(End(c, events))
    decreases |events|
  {
    if events == [] {
    } else {
      NextSound(c, events[0]);
      EndSound(Next(c, events[0]), events[1..]);
    }
  }

  // ---------------------------------------------------------------- one key at one replica

  /** A merge that shows an insertion although the replica knows of a later removal. */
  predicate Undoes(node: Node, latest: View, message: View, k: string) {
    && k !in node.shown && k in message && message[k].Insert?
    && (k in node.log ==> node.log[k].version.Before(message[k].version))
    && k in latest && message[k].version.Before(latest[k].version)
  }

  /** Only a removal can be undone, and only one that is no longer in the log. */
  lemma UndoneWasCut(node: Node, latest: View, message: View, k: string)
    requires InStepAt(node.shown, latest, k) && Undoes(node, latest, message, k)
    ensures latest[k].Remove? && (k in node.log ==> node.log[k] != latest[k])
  {
  }

  /** What a node shows of a key after merging `theirs`: their operation if its log lacks it and it is recorded. */
  function Received(node: Node, theirs: View, k: string): Option<Operation> {
    if && k in theirs && (k in node.log ==> node.log[k].version.Before(theirs[k].version))
       && Records(node.shown, theirs[k])
    then Some(theirs[k])
    else if k in node.shown then Some(node.shown[k])
    else None
  }

  lemma MergeShows(node: Node, theirs: View, k: string)
    ensures var joined := Join(node.log, theirs);
            var shown := MergedShown(node.shown, joined, NewKeys(node.log, joined));
            Received(node, theirs, k) == if k in shown then Some(shown[k]) else None
  {
    var joined := Join(node.log, theirs);
    if k in theirs && (k in node.log ==> node.log[k].version.Before(theirs[k].version)) {
      assert joined[k] == theirs[k] && k in NewKeys(node.log, joined);
    } else {
      assert k !in NewKeys(node.log, joined);
    }
  }

  lemma ReceivedAt(node: Node, latest: View, message: View, ops: set<Operation>, k: string)
    requires InStepAt(node.shown, latest, k) && Coherent(ops)
    requires k in node.log ==> node.log[k] in ops && k in latest && !latest[k].version.Before(node.log[k].version)
    requires (k in latest ==> latest[k] in ops) && (k in message ==> message[k] in ops)
    ensures var all := Join(latest, message);
            match Received(node, message, k)
            case Some(op) =>
              k in all && if Undoes(node, latest, message, k) then op.Insert? && all[k].Remove? else all[k] == op
            case None => !Undoes(node, latest, message, k) && (k in all ==> all[k].Remove?)
  {
    if k in message && k in latest {
      VersionsTotal(message[k].version, latest[k].version);
    }
  }

  lemma MergeAt(node: Node, latest: View, message: View, ops: set<Operation>, k: string)
    requires InStepAt(node.shown, latest, k) && Coherent(ops)
    requires k in node.log ==> node.log[k] in ops && k in latest && !latest[k].version.Before(node.log[k].version)
    requires (k in latest ==> latest[k] in ops) && (k in message ==> message[k] in ops)
    ensures var joined := Join(node.log, message);
            var shown := MergedShown(node.shown, joined, NewKeys(node.log, joined));
            var all := Join(latest, message);
            if Undoes(node, latest, message, k) then ReadAt(shown, k) != ReadAt(all, k) else InStepAt(shown, all, k)
  {
    MergeShows(node, message, k);
    ReceivedAt(node, latest, message, ops, k);
  }

  lemma WriteAt(shown: View, latest: View, op: Operation, k: string)
    requires InStepAt(shown, latest, k) && (op.key in latest ==> latest[op.key].version.Before(op.version))
    ensures InStepAt(Applied(shown, op), if Records(shown, op) then Update(latest, op) else latest, k)
  {
  }

  // ---------------------------------------------------------------- one key along a run

  ghost predicate LatestShown(r: Replica, k: string) {
    ReadAt(r.node.shown, k) == ReadAt(ViewOf(r.known), k)
  }

  /** At every point of the run a reader of replica `i` finds the latest operation known there. */
  ghost predicate LatestThroughout(c: Cluster, events: seq<Event>, i: nat, k: string)
    requires CanRun(c, events) && i < |c.replicas|
    decreases |events|
  {
    && LatestShown(c.replicas[i], k)
    && (events != [] ==> LatestThroughout(Next(c, events[0]), events[1..], i, k))
  }

  ghost predicate UndoesAt(c: Cluster, e: Event, i: nat, k: string)
    requires i < |c.replicas|
  {
    e.Deliver? && e.at == i && Undoes(c.replicas[i].node, ViewOf(c.replicas[i].known), e.message.view, k)
  }

  ghost predicate NeverUndone(c: Cluster, events: seq<Event>, i: nat, k: string)
    requires CanRun(c, events) && i < |c.replicas|
    decreases |events|
  {
    events != [] ==> !UndoesAt(c, events[0], i, k) && NeverUndone(Next(c, events[0]), events[1..], i, k)
  }

  lemma DeliverAt(c: Cluster, e: Event, k: string)
    requires SoundCluster(c) && CanHappen(c, e) && e.Deliver?
    requires InStepAt(c.replicas[e.at].node.shown, ViewOf(c.replicas[e.at].known), k)
    ensures var r := Next(c, e).replicas[e.at];
            if UndoesAt(c, e, e.at, k) then !LatestShown(r, k) else InStepAt(r.node.shown, ViewOf(r.known), k)
  {
    var r, m := c.replicas[e.at], e.message;
    assert SoundReplica(c.replicas, e.at);
    DeliverSound(c, e);
    ViewOfJoined(r.known, m.view, m.known);
    MergeAt(r.node, ViewOf(r.known), m.view, r.known + m.known, k);
  }

  lemma LocalAt(c: Cluster, e: Event, k: string)
    requires SoundCluster(c) && CanHappen(c, e) && e.Local?
    requires InStepAt(c.replicas[e.at].node.shown, ViewOf(c.replicas[e.at].known), k)
    ensures var r := Next(c, e).replicas[e.at]; InStepAt(r.node.shown, ViewOf(r.known), k)
  {
    var r := c.replicas[e.at];
    assert SoundReplica(c.replicas, e.at);
    SoundCoherent(c, r.known);
    CoherentWith(r.known, e.op);
    ViewOfUpdated(r.known, e.op);
    WriteAt(r.node.shown, ViewOf(r.known), e.op, k);
  }

  lemma NextAt(c: Cluster, e: Event, i: nat, k: string)
    requires SoundCluster(c) && CanHappen(c, e) && i < |c.replicas|
    requires InStepAt(c.replicas[i].node.shown, ViewOf(c.replicas[i].known), k)
    ensures var r := Next(c, e).replicas[i];
            if UndoesAt(c, e, i, k) then !LatestShown(r, k) else InStepAt(r.node.shown, ViewOf(r.known), k)
  {
    if e.at == i {
      match e
      case Local(_, _, _) => LocalAt(c, e, k);
      case Deliver(_, _, _) => DeliverAt(c, e, k);
      case Share(_) =>
      case Collect(_, _) =>
    }
  }

  lemma {:induction false} RunAt(c: Cluster, events: seq<Event>, i: nat, k: string)
    requires SoundCluster(c) && CanRun(c, events) && i < |c.replicas|
    requires InStepAt(c.replicas[i].node.shown, ViewOf(c.replicas[i].known), k)
    ensures LatestThroughout(c, events, i, k) <==> NeverUndone(c, events, i, k)
    ensures NeverUndone(c, events, i, k) ==> LatestShown(End(c, events).replicas[i], k)
    decreases |events|
  {
    if events == [] {
    } else {
      NextSound(c, events[0]);
      NextAt(c, events[0], i, k);
      if !UndoesAt(c, events[0], i, k) {
        RunAt(Next(c, events[0]), events[1..], i, k);
      }
    }
  }

  /**
   * Over every run of every cluster, however often logs are cut and tombstones collected: a replica shows the latest
   * operation it knows of a key, at every point, exactly if no merge undoes a removal of that key.
   */
  lemma CutRunsReadLatestIff(n: nat, events: seq<Event>, i: nat, k: string)
    requires CanRun(Initial(n), events) && i < n
    ensures LatestThroughout(Initial(n), events, i, k) <==> NeverUndone(Initial(n), events, i, k)
  {
    RunAt(Initial(n), events, i, k);
  }

  lemma SameKnowledgeReads(a: Replica, b: Replica)
    requires a.known == b.known && forall k :: LatestShown(a, k) && LatestShown(b, k)
    ensures Reads(a.node) == Reads(b.node)
  {
    forall k
      ensures ReadAt(a.node.shown, k) == ReadAt(b.node.shown, k)
    {
      assert LatestShown(a, k) && LatestShown(b, k);
    }
    SameReads(a.node, b.node, {});
  }

  /** So replicas that know the same operations show the same entries if neither has had a removal undone. */
  lemma CutRunsConverge(n: nat, events: seq<Event>, i: nat, j: nat)
    requires CanRun(Initial(n), events) && i < n && j < n
    requires forall k :: NeverUndone(Initial(n), events, i, k) && NeverUndone(Initial(n), events, j, k)
    ensures var c := End(Initial(n), events);
            c.replicas[i].known == c.replicas[j].known ==> Reads(c.replicas[i].node) == Reads(c.replicas[j].node)
  {
    var c := End(Initial(n), events);
    forall k
      ensures LatestShown(c.replicas[i], k) && LatestShown(c.replicas[j], k)
    {
      assert NeverUndone(Initial(n), events, i, k) && NeverUndone(Initial(n), events, j, k);
      RunAt(Initial(n), events, i, k);
      RunAt(Initial(n), events, j, k);
    }
    if c.replicas[i].known == c.replicas[j].known {
      SameKnowledgeReads(c.replicas[i], c.replicas[j]);
    }
  }

  // ---------------------------------------------------------------- exchanging logs after any number of cuts

  function ReadOf(op: Option<Operation>): Option<Value> {
    if op.Some? && op.value.Insert? then Some(op.value.value) else None
  }

  /** The keys at which a node shows something other than its log says. */
  ghost function OutOfStep(node: Node): set<string> {
    set k | k in node.shown.Keys + node.log.Keys && !InStepAt(node.shown, node.log, k)
  }

  /** The peer's joined log brings the node what the peer's log alone would. */
  lemma BackAsThere(node: Node, peer: View, ops: set<Operation>, k: string)
    requires Coherent(ops) && Within(node.log, ops) && Within(peer, ops)
    ensures Received(node, Join(peer, node.log), k) == Received(node, peer, k)
  {
    if k in peer && k in node.log {
      VersionsTotal(peer[k].version, node.log[k].version);
    }
  }

  /** Where both are in step with their logs, the exchange leaves both reading the later operation. */
  lemma InStepAgree(a: Node, b: Node, ops: set<Operation>, k: string)
    requires Coherent(ops) && Within(a.log, ops) && Within(b.log, ops)
    requires InStepAt(a.shown, a.log, k) && InStepAt(b.shown, b.log, k)
    ensures ReadOf(Received(a, b.log, k)) == ReadOf(Received(b, a.log, k))
  {
    if k in a.log && k in b.log {
      VersionsTotal(a.log[k].version, b.log[k].version);
    }
  }

  lemma ExchangeAt(p: Node, q: Node, ops: set<Operation>, q': Node, p': Node, k: string)
    requires Coherent(ops) && Within(p.log, ops) && Within(q.log, ops)
    requires Merges(q, p.log, q') && Merges(p, q'.log, p')
    ensures ReadAt(q'.shown, k) == ReadOf(Received(q, p.log, k))
    ensures ReadAt(p'.shown, k) == ReadOf(Received(p, q.log, k))
  {
    MergeShows(q, p.log, k);
    MergeShows(p, q'.log, k);
    BackAsThere(p, q.log, ops, k);
  }

  lemma ExchangeReads(p: Node, q: Node, ops: set<Operation>, q': Node, p': Node)
    requires Coherent(ops) && Within(p.log, ops) && Within(q.log, ops)
    requires Merges(q, p.log, q') && Merges(p, q'.log, p')
    ensures Reads(p') == Reads(q')
            <==> forall k :: k in OutOfStep(p) + OutOfStep(q) ==>
                     ReadOf(Received(p, q.log, k)) == ReadOf(Received(q, p.log, k))
  {
    var open := OutOfStep(p) + OutOfStep(q);
    forall k
      ensures ReadAt(q'.shown, k) == ReadOf(Received(q, p.log, k))
      ensures ReadAt(p'.shown, k) == ReadOf(Received(p, q.log, k))
      ensures k !in open ==> ReadAt(p'.shown, k) == ReadAt(q'.shown, k)
    {
      ExchangeAt(p, q, ops, q', p', k);
      if k !in open {
        InStepAgree(p, q, ops, k);
      }
    }
    SameReads(p', q', open);
  }

  /**
   * After any run, however often logs were cut, two replicas exchange logs. They then show the same entries exactly
   * if what they receive from each other reads the same at the keys where either shows other than it logs.
   */
  lemma CutExchangeIff(n: nat, events: seq<Event>, i: nat, j: nat, q': Node, p': Node)
    requires CanRun(Initial(n), events) && i < n && j < n
    requires var c := End(Initial(n), events);
             Merges(c.replicas[j].node, c.replicas[i].node.log, q') && Merges(c.replicas[i].node, q'.log, p')
    ensures var c := End(Initial(n), events);
            var p, q := c.replicas[i].node, c.replicas[j].node;
            Reads(p') == Reads(q')
            <==> forall k :: k in OutOfStep(p) + OutOfStep(q) ==>
                     ReadOf(Received(p, q.log, k)) == ReadOf(Received(q, p.log, k))
  {
    var c := End(Initial(n), events);
    EndSound(Initial(n), events);
    assert SoundReplica(c.replicas, i) && SoundReplica(c.replicas, j);
    var ops := c.replicas[i].known + c.replicas[j].known;
    SoundCoherent(c, ops);
    ExchangeReads(c.replicas[i].node, c.replicas[j].node, ops, q', p');
  }

  // ---------------------------------------------------------------- runs are what their steps make them

  function Carrier(clock: nat, op: Operation): Node {
    Node(clock, map[op.key := op], map[op.key := op])
  }

  function Letter(op: Operation): Snapshot {
    Snapshot(map[op.key := op], {op})
  }

  /** An insertion at replica `i`, its log sent and delivered to replica `j`. */
  function Arrival(i: nat, j: nat, op: Operation): seq<Event> {
    [Local(i, op, Carrier(1, op))] + ([Share(i)] + ([Deliver(j, Letter(op), Carrier(2, op))] + []))
  }

  function Written(n: nat, i: nat, op: Operation): Cluster
    requires i < n
  {
    Cluster(seq(n, _ => Replica(EMPTY, {}))[i := Replica(Carrier(1, op), {op})], {})
  }

  function Sent(n: nat, i: nat, op: Operation): Cluster
    requires i < n
  {
    Written(n, i, op).(sent := {Letter(op)})
  }

  function Arrived(n: nat, i: nat, j: nat, op: Operation): Cluster
    requires i < n && j < n
  {
    Cluster(Written(n, i, op).replicas[j := Replica(Carrier(2, op), {op})], {Letter(op)})
  }

  lemma FirstEvent(c: Cluster, e: Event, rest: seq<Event>)
    ensures Possible(c, [e] + rest) <==> Enabled(c, e) && Safe(c, e) && Possible(Step(c, e), rest)
    ensures Possible(c, [e] + rest) ==> Run(c, [e] + rest) == Run(Step(c, e), rest)
    ensures CanRun(c, [e] + rest) <==> CanHappen(c, e) && CanRun(Next(c, e), rest)
    ensures CanRun(c, [e] + rest) ==> End(c, [e] + rest) == End(Next(c, e), rest)
  {
    assert ([e] + rest)[1..] == rest;
  }

  lemma FirstInsertWrites(op: Operation)
    requires op.Insert?
    ensures Writes(EMPTY, op, Carrier(1, op)) && HasRoom(EMPTY.log, op.key)
  {
    assert {} + {op.key} == {op.key};
  }

  lemma FirstMerges(op: Operation)
    requires op.Insert? && op.version.timestamp == 1
    ensures Merges(EMPTY, map[op.key := op], Carrier(2, op))
  {
    var message: View := map[op.key := op];
    assert Join(map[], message) == message && NewKeys(map[], message) == {op.key};
    assert MergedShown(map[], message, {op.key}) == message;
  }

  lemma WriteStep(n: nat, i: nat, op: Operation)
    requires i < n && op.Insert? && op.version == Version(1, i)
    ensures var c, e := Initial(n), Local(i, op, Carrier(1, op));
            && Enabled(c, e) && Safe(c, e) && CanHappen(c, e)
            && Step(c, e) == Next(c, e) == Written(n, i, op)
  {
    FirstInsertWrites(op);
  }

  lemma ShareStep(n: nat, i: nat, op: Operation)
    requires i < n
    ensures var c, e := Written(n, i, op), Share(i);
            && Enabled(c, e) && Safe(c, e) && CanHappen(c, e)
            && Step(c, e) == Next(c, e) == Sent(n, i, op)
  {
    var view: View := map[op.key := op];
    assert view.Values == {op};
  }

  lemma DeliverStep(n: nat, i: nat, j: nat, op: Operation)
    requires i < n && j < n && i != j && op.Insert? && op.version.timestamp == 1
    ensures var c, e := Sent(n, i, op), Deliver(j, Letter(op), Carrier(2, op));
            && Enabled(c, e) && Safe(c, e) && CanHappen(c, e)
            && Step(c, e) == Next(c, e) == Arrived(n, i, j, op)
  {
    FirstMerges(op);
    var none: set<Operation> := {};
    assert none + Letter(op).known == {op};
  }

  lemma CarrierReads(clock: nat, op: Operation)
    requires op.Insert?
    ensures Reads(Carrier(clock, op)) == map[op.key := op.value]
  {
  }

  lemma ArrivalRuns(n: nat, i: nat, j: nat, op: Operation)
    requires i < n && j < n && i != j && op.Insert? && op.version == Version(1, i)
    ensures var c, events := Arrived(n, i, j, op), Arrival(i, j, op);
            Reaches(n, events, c) && CanRun(Initial(n), events) && End(Initial(n), events) == c
  {
    var last, none: seq<Event> := Deliver(j, Letter(op), Carrier(2, op)), [];
    WriteStep(n, i, op);
    ShareStep(n, i, op);
    DeliverStep(n, i, j, op);
    FirstEvent(Initial(n), Local(i, op, Carrier(1, op)), [Share(i)] + ([last] + none));
    FirstEvent(Written(n, i, op), Share(i), [last] + none);
    FirstEvent(Sent(n, i, op), last, none);
  }

  /** What one replica inserts, another reads once the log has been delivered. */
  lemma InsertArrives(n: nat, i: nat, j: nat, key: string, value: Value)
    requires i < n && j < n && i != j
    ensures var op := Insert(key, value, Version(1, i));
            var c, events := Arrived(n, i, j, op), Arrival(i, j, op);
            && Reaches(n, events, c) && CanRun(Initial(n), events) && End(Initial(n), events) == c
            && Reads(c.replicas[i].node) == map[key := value] && Reads(c.replicas[j].node) == map[key := value]
  {
    var op := Insert(key, value, Version(1, i));
    ArrivalRuns(n, i, j, op);
    CarrierReads(1, op);
    CarrierReads(2, op);
  }
}
