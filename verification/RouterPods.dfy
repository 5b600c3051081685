/** From the pods that the router watch shows to the mesh cluster map, on the fields of the pods. */
module RouterPods {
  import opened Text
  import opened Pods
  import opened Listings
  import opened RouterNodes

  /** A router of this name: it carries the router labels, and has a uid and an address. */
  ghost predicate IsRouter(pod: Pod, config: Config, name: string) {
    && Carries(pod, config.routerSelector) && pod.name == Some(name) && pod.uid.Some?
    && pod.status.Some? && pod.status.value.podIp.Some?
  }

  ghost predicate SeenUp(pods: seq<Pod>, config: Config, name: string, i: int) {
    0 <= i < |pods| && IsRouter(pods[i], config, name) && !pods[i].deleting && IsUp(pods[i])
  }

  ghost predicate SeenDeleting(pods: seq<Pod>, config: Config, name: string, i: int) {
    0 <= i < |pods| && IsRouter(pods[i], config, name) && pods[i].deleting
  }

  ghost predicate SeenUnwell(pods: seq<Pod>, config: Config, name: string, i: int) {
    0 <= i < |pods| && IsRouter(pods[i], config, name) && !pods[i].deleting && !IsUp(pods[i])
  }

  /** The last time the router was up. */
  ghost predicate LastUp(pods: seq<Pod>, config: Config, name: string, i: int) {
    SeenUp(pods, config, name, i) && forall j :: i < j ==> !SeenUp(pods, config, name, j)
  }

  /** Its address then: the pod's IP with the annotated port, or else the default one. */
  ghost predicate MeshAddress(pod: Pod, config: Config, defaultPort: nat, address: string) {
    && pod.status.Some? && pod.status.value.podIp.Some?
    && exists port: nat ::
         && address == pod.status.value.podIp.value + ":" + Decimal(port)
         && (NumberAt(pod.annotations, config.routerMeshPortAnnotation, port)
             || (port == defaultPort
                 && forall n: nat :: !NumberAt(pod.annotations, config.routerMeshPortAnnotation, n)))
  }

  // ---------------------------------------------------------------- pods as events

  const NO_EVENT := RouterEvent(PodInfo("", "", "", "", false, Regular, None, false, None, None), false)

  /** What the watch hands on for a pod; one that is no router counts as nothing. */
  function EventFor(pod: Pod, config: Config): RouterEvent {
    if MatchesSelector(pod, config.routerSelector) && FromPod(pod, config).Some?
    then RouterEvent(FromPod(pod, config).value, pod.deleting)
    else NO_EVENT
  }

  function EventsFor(pods: seq<Pod>, config: Config): seq<RouterEvent> {
    seq(|pods|, i requires 0 <= i < |pods| => EventFor(pods[i], config))
  }

  lemma KindRead(pod: Pod, config: Config, name: string)
    ensures KindOf(EventFor(pod, config), name)
            == if !IsRouter(pod, config, name) then Ignored
               else if pod.deleting then Deleted
               else if IsUp(pod) then Healthy
               else Unhealthy
  {
    CarriesIs(pod, config.routerSelector);
    if FromPod(pod, config).Some? {
      HealthyIs(pod, config);
    }
  }

  /** The router fields of what is read from a pod: its labels, and the annotated port of a router only. */
  lemma RouterRead(pod: Pod, config: Config, n: nat)
    requires FromPod(pod, config).Some?
    ensures var info := FromPod(pod, config).value;
            && (info.isRouter <==> Carries(pod, config.routerSelector))
            && (info.meshPort == Some(n)
                <==> info.isRouter && NumberAt(pod.annotations, config.routerMeshPortAnnotation, n))
  {
    CarriesIs(pod, config.routerSelector);
    PortIs(pod, config.routerMeshPortAnnotation, n);
  }

  lemma AddressRead(pod: Pod, config: Config, name: string, defaultPort: nat, address: string)
    requires IsRouter(pod, config, name) && AddressIs(EventFor(pod, config).info, defaultPort, address)
    ensures MeshAddress(pod, config, defaultPort, address)
  {
    CarriesIs(pod, config.routerSelector);
    var info := FromPod(pod, config).value;
    forall n: nat
      ensures info.meshPort == Some(n) <==> NumberAt(pod.annotations, config.routerMeshPortAnnotation, n)
    {
      RouterRead(pod, config, n);
    }
    var port := if info.meshPort.Some? then info.meshPort.value else defaultPort;
    assert address == pod.status.value.podIp.value + ":" + Decimal(port);
  }

  lemma UpSince(pods: seq<Pod>, config: Config, name: string, from: nat)
    ensures Since(EventsFor(pods, config), from, name, Healthy)
            <==> exists j :: from <= j && SeenUp(pods, config, name, j)
  {
    forall j | 0 <= j < |pods|
      ensures KindOf(EventsFor(pods, config)[j], name) == Healthy <==> SeenUp(pods, config, name, j)
    {
      KindRead(pods[j], config, name);
    }
  }

  lemma DeletingSince(pods: seq<Pod>, config: Config, name: string, from: nat)
    ensures Since(EventsFor(pods, config), from, name, Deleted)
            <==> exists j :: from <= j && SeenDeleting(pods, config, name, j)
  {
    forall j | 0 <= j < |pods|
      ensures KindOf(EventsFor(pods, config)[j], name) == Deleted <==> SeenDeleting(pods, config, name, j)
    {
      KindRead(pods[j], config, name);
    }
  }

  lemma UnwellSince(pods: seq<Pod>, config: Config, name: string, from: nat)
    ensures Since(EventsFor(pods, config), from, name, Unhealthy)
            <==> exists j :: from <= j && SeenUnwell(pods, config, name, j)
  {
    forall j | 0 <= j < |pods|
      ensures KindOf(EventsFor(pods, config)[j], name) == Unhealthy <==> SeenUnwell(pods, config, name, j)
    {
      KindRead(pods[j], config, name);
    }
  }

  lemma LastUpRead(pods: seq<Pod>, config: Config, name: string, i: nat)
    requires LastUp(pods, config, name, i)
    ensures LastHealthy(EventsFor(pods, config), i, name)
  {
    KindRead(pods[i], config, name);
    UpSince(pods, config, name, i + 1);
  }

  /** Since it was last up, at `i`, the router was seen being deleted, or else not up, or else neither. */
  ghost predicate StatusAfter(pods: seq<Pod>, config: Config, name: string, i: int, status: NodeStatus) {
    match status
    case Down => exists j :: i <= j && SeenDeleting(pods, config, name, j)
    case Suspected =>
      && (exists j :: i <= j && SeenUnwell(pods, config, name, j))
      && !(exists j :: i <= j && SeenDeleting(pods, config, name, j))
    case Alive => !(exists j :: i <= j && (SeenDeleting(pods, config, name, j) || SeenUnwell(pods, config, name, j)))
  }

  lemma StatusRead(pods: seq<Pod>, config: Config, name: string, i: nat, status: NodeStatus)
    requires StatusSince(EventsFor(pods, config), i, name, status)
    ensures StatusAfter(pods, config, name, i, status)
  {
    DeletingSince(pods, config, name, i);
    UnwellSince(pods, config, name, i);
  }

  /**
   * After any pods: a node is there exactly if a router of its name was once up, its address is the one it had when it
   * was last up, and its status is down if it was seen being deleted since, else suspected if it was seen not up, else
   * alive.
   */
  lemma NodesFromPods(pods: seq<Pod>, config: Config, name: string, defaultPort: nat)
    ensures var nodes := Replay(EventsFor(pods, config), defaultPort);
            && (name in nodes <==> exists i :: 0 <= i && SeenUp(pods, config, name, i))
            && forall i :: LastUp(pods, config, name, i) ==>
                 && name in nodes && nodes[name].name == name
                 && MeshAddress(pods[i], config, defaultPort, nodes[name].address)
                 && StatusAfter(pods, config, name, i, nodes[name].status)
  {
    var events := EventsFor(pods, config);
    var nodes := Replay(events, defaultPort);
    NodeFromHistory(events, name, defaultPort);
    UpSince(pods, config, name, 0);
    forall i | LastUp(pods, config, name, i)
      ensures && name in nodes && nodes[name].name == name
              && MeshAddress(pods[i], config, defaultPort, nodes[name].address)
              && StatusAfter(pods, config, name, i, nodes[name].status)
    {
      LastUpRead(pods, config, name, i);
      assert NodeSince(events, i, name, nodes, defaultPort);
      AddressRead(pods[i], config, name, defaultPort, nodes[name].address);
      StatusRead(pods, config, name, i, nodes[name].status);
    }
  }

  /** The cluster state that has watched the pods. */
  method WatchRouters(pods: seq<Pod>, config: Config, defaultPort: nat) returns (state: ClusterState)
    ensures state.nodes == Replay(EventsFor(pods, config), defaultPort)
  {
    state := new ClusterState(defaultPort);
    for n := 0 to |pods|
      invariant fresh(state) && state.Valid() && state.defaultPort == defaultPort
      invariant Replay(state.seen, defaultPort) == Replay(EventsFor(pods[..n], config), defaultPort)
    {
      var events := EventsFor(pods[..n], config);
      ReplaySnoc(events, EventFor(pods[n], config), defaultPort);
      assert EventsFor(pods[..n + 1], config) == events + [EventFor(pods[n], config)];
      if MatchesSelector(pods[n], config.routerSelector) {
        var info := FromPod(pods[n], config);
        if info.Some? {
          ReplaySnoc(state.seen, RouterEvent(info.value, pods[n].deleting), defaultPort);
          state.OnEvent(RouterEvent(info.value, pods[n].deleting));
        }
      }
    }
    assert pods[..|pods|] == pods;
  }
}
