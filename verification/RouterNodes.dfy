/** Router discovery: pod events drive the mesh cluster map, and watcher errors drive the retry delay. */
module RouterNodes {
  import opened Text
  import opened Pods

  datatype NodeStatus = Alive | Suspected | Down
  datatype Node = Node(name: string, address: string, status: NodeStatus, version: nat)
  type Cluster = map<string, Node>

  /** A watch event that passed the router selector, with the pod's deletion mark. */
  datatype RouterEvent = RouterEvent(info: PodInfo, deleting: bool)

  datatype Kind = Deleted | Healthy | Unhealthy | Ignored

  function KindOf(e: RouterEvent, name: string): Kind {
    if !e.info.isRouter || e.info.name != name then Ignored
    else if e.deleting then Deleted
    else if e.info.IsHealthy() then Healthy
    else Unhealthy
  }

  function Address(e: RouterEvent, defaultPort: nat): string {
    e.info.ip + ":" + Decimal(if e.info.meshPort.Some? then e.info.meshPort.value else defaultPort)
  }

  function Apply(cluster: Cluster, e: RouterEvent, defaultPort: nat): Cluster {
    var name := e.info.name;
    if !e.info.isRouter then cluster
    else if e.deleting then
      if name in cluster then cluster[name := cluster[name].(status := Down, version := cluster[name].version + 1)]
      else cluster
    else if e.info.IsHealthy() then
      var version := if name in cluster then cluster[name].version else 0;
      cluster[name := Node(name, Address(e, defaultPort), Alive, version + 1)]
    else if name in cluster && cluster[name].status != Down then
      cluster[name := cluster[name].(status := Suspected, version := cluster[name].version + 1)]
    else cluster
  }

  function Replay(events: seq<RouterEvent>, defaultPort: nat): Cluster {
    if events == [] then map[]
    else Apply(Replay(events[..|events| - 1], defaultPort), events[|events| - 1], defaultPort)
  }

  lemma ReplaySnoc(events: seq<RouterEvent>, e: RouterEvent, defaultPort: nat)
    ensures Replay(events + [e], defaultPort) == Apply(Replay(events, defaultPort), e, defaultPort)
  {
    assert (events + [e])[..|events|] == events;
  }

  class ClusterState {
    var nodes: Cluster
    ghost var seen: seq<RouterEvent>
    const defaultPort: nat

    ghost predicate Valid()
      reads this
    {
      nodes == Replay(seen, defaultPort)
    }

    constructor (defaultPort: nat)
      ensures Valid() && seen == [] && this.defaultPort == defaultPort
    {
      nodes, seen, this.defaultPort := map[], [], defaultPort;
    }

    method OnEvent(e: RouterEvent)
      requires Valid()
      modifies this
      ensures Valid() && seen == old(seen) + [e]
    {
      var name, next := e.info.name, nodes;
      if e.info.isRouter {
        if e.deleting {
          if name in next {
            next := next[name := next[name].(status := Down, version := next[name].version + 1)];
          }
        } else if e.info.IsHealthy() {
          var existing := if name in next then next[name].version else 0;
          next := next[name := Node(name, Address(e, defaultPort), Alive, existing + 1)];
        } else if name in next {
          if next[name].status != Down {
            next := next[name := next[name].(status := Suspected, version := next[name].version + 1)];
          }
        }
      }
      assert next == Apply(nodes, e, defaultPort);
      ReplaySnoc(seen, e, defaultPort);
      nodes, seen := next, seen + [e];
    }
  }

  // ---------------------------------------------------------------- the history of one name

  /** Some event of this kind happened since index `from`. */
  predicate Since(events: seq<RouterEvent>, from: nat, name: string, kind: Kind) {
    exists i :: from <= i < |events| && KindOf(events[i], name) == kind
  }

  /** Index `i` is the last healthy event of the name. */
  ghost predicate LastHealthy(events: seq<RouterEvent>, i: nat, name: string) {
    i < |events| && KindOf(events[i], name) == Healthy && !Since(events, i + 1, name, Healthy)
  }

  /** What a name's status must be, read off its events alone. */
  ghost predicate StatusSince(events: seq<RouterEvent>, i: nat, name: string, status: NodeStatus) {
    if Since(events, i, name, Deleted) then status == Down
    else if Since(events, i, name, Unhealthy) then status == Suspected
    else status == Alive
  }

  /** An event counts unless the name is unknown, or it is an unhealthy event of a node that is down. */
  ghost predicate Effective(before: seq<RouterEvent>, e: RouterEvent, name: string) {
    match KindOf(e, name)
    case Healthy => true
    case Deleted => Since(before, 0, name, Healthy)
    case Unhealthy => exists i: nat :: LastHealthy(before, i, name) && !Since(before, i, name, Deleted)
    case Ignored => false
  }

  ghost function EffectiveCount(events: seq<RouterEvent>, name: string): nat {
    if events == [] then 0
    else
      var init := events[..|events| - 1];
      EffectiveCount(init, name) + if Effective(init, events[|events| - 1], name) then 1 else 0
  }

  lemma SinceSnoc(events: seq<RouterEvent>, e: RouterEvent, from: nat, name: string, kind: Kind)
    requires from <= |events|
    ensures Since(events + [e], from, name, kind) <==> Since(events, from, name, kind) || KindOf(e, name) == kind
  {
    var more := events + [e];
    assert more[|events|] == e;
    assert forall i :: 0 <= i < |events| ==> more[i] == events[i];
  }

  lemma LastHealthySnoc(events: seq<RouterEvent>, e: RouterEvent, i: nat, name: string)
    ensures LastHealthy(events + [e], i, name)
            <==> if KindOf(e, name) == Healthy then i == |events| else LastHealthy(events, i, name)
  {
    var more := events + [e];
    assert more[|events|] == e;
    if i < |events| {
      assert more[i] == events[i];
      SinceSnoc(events, e, i + 1, name, Healthy);
    }
  }

  /** The pod's IP and the port it was annotated with, or else the default one. */
  ghost predicate AddressIs(pod: PodInfo, defaultPort: nat, address: string) {
    && (forall port :: pod.meshPort == Some(port) ==> address == pod.ip + ":" + Decimal(port))
    && (pod.meshPort == None ==> address == pod.ip + ":" + Decimal(defaultPort))
  }

  /** The node carries what its last healthy event, at `i`, and the events since then say. */
  ghost predicate NodeSince(events: seq<RouterEvent>, i: nat, name: string, cluster: Cluster, defaultPort: nat)
    requires i < |events|
  {
    && name in cluster
    && cluster[name].name == name && AddressIs(events[i].info, defaultPort, cluster[name].address)
    && StatusSince(events, i, name, cluster[name].status)
  }

  /** What the history of a name says of its node, `version` aside. */
  ghost predicate Explains(events: seq<RouterEvent>, name: string, cluster: Cluster, defaultPort: nat) {
    && (name in cluster <==> Since(events, 0, name, Healthy))
    && (name in cluster ==> exists i: nat :: LastHealthy(events, i, name))
    && forall i: nat :: LastHealthy(events, i, name) ==> NodeSince(events, i, name, cluster, defaultPort)
  }

  function VersionOf(cluster: Cluster, name: string): nat {
    if name in cluster then cluster[name].version else 0
  }

  lemma NodeSinceSnoc(events: seq<RouterEvent>, e: RouterEvent, i: nat, name: string, cluster: Cluster,
                      defaultPort: nat)
    requires i < |events| && NodeSince(events, i, name, cluster, defaultPort) && KindOf(e, name) != Healthy
    ensures NodeSince(events + [e], i, name, Apply(cluster, e, defaultPort), defaultPort)
  {
    SinceSnoc(events, e, i, name, Deleted);
    SinceSnoc(events, e, i, name, Unhealthy);
  }

  lemma NodeSinceHealthy(events: seq<RouterEvent>, e: RouterEvent, name: string, cluster: Cluster, defaultPort: nat)
    requires KindOf(e, name) == Healthy
    ensures NodeSince(events + [e], |events|, name, Apply(cluster, e, defaultPort), defaultPort)
  {
    SinceSnoc(events, e, |events|, name, Deleted);
    SinceSnoc(events, e, |events|, name, Unhealthy);
  }

  lemma ExplainsSnoc(events: seq<RouterEvent>, e: RouterEvent, name: string, cluster: Cluster, defaultPort: nat)
    requires Explains(events, name, cluster, defaultPort)
    ensures Explains(events + [e], name, Apply(cluster, e, defaultPort), defaultPort)
  {
    var more := events + [e];
    SinceSnoc(events, e, 0, name, Healthy);
    if KindOf(e, name) == Healthy {
      LastHealthySnoc(events, e, |events|, name);
      NodeSinceHealthy(events, e, name, cluster, defaultPort);
    } else if name in cluster {
      var i: nat :| LastHealthy(events, i, name);
      LastHealthySnoc(events, e, i, name);
    }
    forall i: nat | LastHealthy(more, i, name)
      ensures NodeSince(more, i, name, Apply(cluster, e, defaultPort), defaultPort)
    {
      LastHealthySnoc(events, e, i, name);
      if KindOf(e, name) != Healthy {
        NodeSinceSnoc(events, e, i, name, cluster, defaultPort);
      }
    }
  }

  lemma VersionSnoc(events: seq<RouterEvent>, e: RouterEvent, name: string, cluster: Cluster, defaultPort: nat)
    requires Explains(events, name, cluster, defaultPort)
    ensures VersionOf(Apply(cluster, e, defaultPort), name)
            == VersionOf(cluster, name) + if Effective(events, e, name) then 1 else 0
  {
    if name in cluster {
      var i: nat :| LastHealthy(events, i, name);
      assert Since(events, i, name, Deleted) <==> cluster[name].status == Down;
    }
  }

  /**
   * After any events: a node is there exactly if it was once healthy, its address is that of its last
   * healthy event, its status is Down if a deletion followed that event, else Suspected if it was
   * unhealthy since, else Alive, and its version is the number of effective events.
   */
  lemma {:induction false} NodeFromHistory(events: seq<RouterEvent>, name: string, defaultPort: nat)
    ensures Explains(events, name, Replay(events, defaultPort), defaultPort)
    ensures VersionOf(Replay(events, defaultPort), name) == EffectiveCount(events, name)
  {
    if events == [] {
    } else {
      var init, e := events[..|events| - 1], events[|events| - 1];
      assert events == init + [e];
      NodeFromHistory(init, name, defaultPort);
      ExplainsSnoc(init, e, name, Replay(init, defaultPort), defaultPort);
      VersionSnoc(init, e, name, Replay(init, defaultPort), defaultPort);
    }
  }

  /** Nodes are never removed and versions never go back. */
  lemma {:induction false} VersionsGrow(events: seq<RouterEvent>, more: seq<RouterEvent>, name: string,
                                        defaultPort: nat)
    requires name in Replay(events, defaultPort)
    ensures name in Replay(events + more, defaultPort)
    ensures Replay(events, defaultPort)[name].version <= Replay(events + more, defaultPort)[name].version
  {
    if more == [] {
      assert events + more == events;
    } else {
      var init := more[..|more| - 1];
      VersionsGrow(events, init, name, defaultPort);
      assert (events + more)[..|events + more| - 1] == events + init;
    }
  }
}

/** The delay between two attempts of a watcher. */
module Backoff {
  const MAX_RETRY_DELAY: nat := 300

  function Pow2(k: nat): nat {
    if k == 0 then 1 else 2 * Pow2(k - 1)
  }

  function Min(a: nat, b: nat): nat {
    if a <= b then a else b
  }

  /** How many of the outcomes, counted from the last one back, are errors. */
  function ErrorStreak(ok: seq<bool>): nat {
    if ok == [] || ok[|ok| - 1] then 0 else 1 + ErrorStreak(ok[..|ok| - 1])
  }

  /** The delay after a history of attempts: doubled by each error since the last success, up to the limit. */
  function DelayAfter(ok: seq<bool>): nat {
    Min(Pow2(ErrorStreak(ok)), MAX_RETRY_DELAY)
  }

  lemma {:induction false} StreakGrows(ok: seq<bool>, errors: seq<bool>)
    requires true !in errors
    ensures ErrorStreak(ok + errors) == ErrorStreak(ok) + |errors|
  {
    if errors == [] {
      assert ok + errors == ok;
    } else {
      var init := errors[..|errors| - 1];
      assert (ok + errors)[..|ok + errors| - 1] == ok + init;
      assert errors[|errors| - 1] in errors;
      StreakGrows(ok, init);
    }
  }

  lemma {:induction false} Pow2Grows(a: nat, b: nat)
    requires a <= b
    ensures 1 <= Pow2(a) <= Pow2(b)
    decreases b
  {
    if b == 0 {
    } else if a < b {
      Pow2Grows(a, b - 1);
    } else {
      Pow2Grows(a - 1, b - 1);
    }
  }

  /** While attempts fail the delay never falls, and nine failures take it to its limit; a success resets it. */
  lemma DelayGrows(ok: seq<bool>, errors: seq<bool>)
    requires true !in errors
    ensures DelayAfter(ok) <= DelayAfter(ok + errors)
    ensures |errors| >= 9 ==> DelayAfter(ok + errors) == 300
    ensures DelayAfter(ok + [true]) == 1
  {
    StreakGrows(ok, errors);
    Pow2Grows(ErrorStreak(ok), ErrorStreak(ok + errors));
    if |errors| >= 9 {
      Pow2Grows(9, ErrorStreak(ok + errors));
      assert Pow2(4) == 16 && Pow2(9) == 512;
    }
  }

  method RetryDelay(ok: seq<bool>) returns (delay: nat)
    ensures delay == DelayAfter(ok) && 1 <= delay <= 300
  {
    delay := 1;
    for i := 0 to |ok|
      invariant delay == DelayAfter(ok[..i]) && delay >= 1
    {
      assert ok[..i + 1][..i] == ok[..i];
      if ok[i] {
        delay := 1;
      } else {
        delay := Min(delay * 2, MAX_RETRY_DELAY);
      }
    }
    assert ok[..|ok|] == ok;
  }
}
