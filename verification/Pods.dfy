/** Kubernetes pods as service discovery sees them: selectors, extraction, identity and the live set. */
module Pods {
  import opened Text

  type Labels = map<string, string>

  datatype PodCondition = PodCondition(kind: string, status: string)
  datatype PodStatus = PodStatus(podIp: Option<string>, phase: Option<string>, conditions: Option<seq<PodCondition>>)
  datatype Pod = Pod(
    name: Option<string>, uid: Option<string>, namespace: Option<string>,
    labels: Option<Labels>, annotations: Option<Labels>,
    deleting: bool, status: Option<PodStatus>)

  datatype ModelIdSource = Namespace | Label(key: string) | Annotation(key: string)

  datatype Config = Config(
    selector: Labels, pdMode: bool, prefillSelector: Labels, decodeSelector: Labels,
    bootstrapPortAnnotation: string, routerSelector: Labels, routerMeshPortAnnotation: string,
    modelIdSource: Option<ModelIdSource>)

  datatype PodType = Prefill | Decode | Regular

  /** What makes two `PodInfo` equal: the restart-proof pair of name and uid. */
  datatype PodId = PodId(name: string, uid: string)

  datatype PodInfo = PodInfo(
    name: string, uid: string, ip: string, status: string, isReady: bool,
    podType: PodType, bootstrapPort: Option<nat>, isRouter: bool, meshPort: Option<nat>,
    modelIdOverride: Option<string>)
  {
    function Id(): PodId {
      PodId(name, uid)
    }

    predicate IsHealthy() {
      isReady && status == "Running"
    }

    function WorkerUrl(port: nat): string {
      UrlAt(ip, port)
    }
  }

  function UrlAt(ip: string, port: nat): string {
    "http://" + ip + ":" + Decimal(port)
  }

  /** A hash set of `PodInfo` under identity equality: one stored value per identity. */
  type PodSet = m: map<PodId, PodInfo> | forall k :: k in m ==> m[k].Id() == k witness map[]

  /** `HashSet::insert`: an equal element already present is kept, not replaced. */
  function Insert(s: PodSet, p: PodInfo): PodSet {
    if p.Id() in s then s else s[p.Id() := p]
  }

  lemma WorkerUrlInjective(p: PodInfo, q: PodInfo, port: nat)
    ensures p.WorkerUrl(port) == q.WorkerUrl(port) <==> p.ip == q.ip
  {
    if p.WorkerUrl(port) == q.WorkerUrl(port) {
      var tail := ":" + Decimal(port);
      assert |p.ip| == |q.ip|;
      assert p.WorkerUrl(port)[7..7 + |p.ip|] == p.ip;
      assert q.WorkerUrl(port)[7..7 + |q.ip|] == q.ip;
    }
  }

  // ---------------------------------------------------------------- selectors

  function Lookup(m: Option<Labels>, key: string): Option<string> {
    if m.Some? && key in m.value then Some(m.value[key]) else None
  }

  predicate MatchesSelector(pod: Pod, selector: Labels) {
    && selector != map[]
    && pod.labels.Some?
    && forall k :: k in selector ==> k in pod.labels.value && pod.labels.value[k] == selector[k]
  }

  predicate ShouldInclude(pod: Pod, config: Config) {
    if config.pdMode then
      && !(config.prefillSelector == map[] && config.decodeSelector == map[])
      && (MatchesSelector(pod, config.prefillSelector) || MatchesSelector(pod, config.decodeSelector))
    else
      config.selector != map[] && MatchesSelector(pod, config.selector)
  }

  /** The conjunction of label equalities sent with the list call; empty means "no server-side filter". */
  function ListLabelSelector(config: Config): Labels {
    if config.pdMode then
      map k | k in config.prefillSelector && k in config.decodeSelector
              && config.decodeSelector[k] == config.prefillSelector[k] :: config.prefillSelector[k]
    else
      config.selector
  }

  /** How the API server reads such a conjunction: every pair must be among the pod's labels. */
  predicate ServerMatches(pod: Pod, selector: Labels) {
    forall k :: k in selector ==> Lookup(pod.labels, k) == Some(selector[k])
  }

  ghost predicate SoundFilter(config: Config, selector: Labels) {
    forall pod: Pod :: ShouldInclude(pod, config) ==> ServerMatches(pod, selector)
  }

  predicate Weaker(a: Labels, b: Labels) {
    forall k :: k in a ==> k in b && a[k] == b[k]
  }

  function PodLabelled(labels: Labels): Pod {
    Pod(None, None, None, Some(labels), None, false, None)
  }

  lemma ListSelectorSound(config: Config)
    ensures SoundFilter(config, ListLabelSelector(config))
  {
  }

  /** Every selector the mode uses is set, so that each of them admits some pod. */
  predicate SelectorsSet(config: Config) {
    if config.pdMode then config.prefillSelector != map[] && config.decodeSelector != map[]
    else config.selector != map[]
  }

  /** The filter is the strongest sound one: a conjunction is sound exactly when it is implied by it. */
  lemma ListSelectorStrongest(config: Config, selector: Labels)
    requires SelectorsSet(config)
    ensures SoundFilter(config, selector) <==> Weaker(selector, ListLabelSelector(config))
  {
    ListSelectorSound(config);
    if SoundFilter(config, selector) {
      if config.pdMode {
        var p, d := PodLabelled(config.prefillSelector), PodLabelled(config.decodeSelector);
        assert ShouldInclude(p, config) && ShouldInclude(d, config);
        forall k | k in selector
          ensures k in ListLabelSelector(config) && selector[k] == ListLabelSelector(config)[k]
        {
          assert Lookup(p.labels, k) == Some(selector[k]) && Lookup(d.labels, k) == Some(selector[k]);
        }
      } else {
        var p := PodLabelled(config.selector);
        assert ShouldInclude(p, config);
        forall k | k in selector
          ensures k in config.selector && selector[k] == config.selector[k]
        {
          assert Lookup(p.labels, k) == Some(selector[k]);
        }
      }
    }
  }

  // ---------------------------------------------------------------- extraction

  function ExtractModelId(source: ModelIdSource, pod: Pod): Option<string> {
    match source
    case Namespace => pod.namespace
    case Label(key) => Lookup(pod.labels, key)
    case Annotation(key) => Lookup(pod.annotations, key)
  }

  function PortAnnotation(pod: Pod, key: string): Option<nat> {
    var text := Lookup(pod.annotations, key);
    if text.Some? then ParseU16(text.value) else None
  }

  predicate ReadyCondition(c: PodCondition) {
    c.kind == "Ready" && c.status == "True"
  }

  function FromPod(pod: Pod, config: Config): Option<PodInfo> {
    if pod.name.None? || pod.uid.None? || pod.status.None? || pod.status.value.podIp.None? then None
    else
      var status := pod.status.value;
      var ready := status.conditions.Some? && exists c :: c in status.conditions.value && ReadyCondition(c);
      var podType :=
        if !config.pdMode then Regular
        else if MatchesSelector(pod, config.prefillSelector) then Prefill
        else if MatchesSelector(pod, config.decodeSelector) then Decode
        else Regular;
      var isRouter := config.routerSelector != map[] && MatchesSelector(pod, config.routerSelector);
      Some(PodInfo(
        pod.name.value, pod.uid.value, status.podIp.value,
        if status.phase.Some? then status.phase.value else "Unknown",
        ready, podType,
        if podType == Prefill then PortAnnotation(pod, config.bootstrapPortAnnotation) else None,
        isRouter,
        if isRouter then PortAnnotation(pod, config.routerMeshPortAnnotation) else None,
        if config.modelIdSource.Some? then ExtractModelId(config.modelIdSource.value, pod) else None))
  }

  // ---------------------------------------------------------------- the live set

  /** What one listed pod adds to the live set. */
  function LiveEntry(pod: Pod, config: Config): Option<PodInfo> {
    if !ShouldInclude(pod, config) || pod.deleting then None else FromPod(pod, config)
  }

  function AddEntry(live: PodSet, entry: Option<PodInfo>): PodSet {
    if entry.Some? then Insert(live, entry.value) else live
  }

  function Collect(pods: seq<Pod>, entry: Pod -> Option<PodInfo>): PodSet {
    if pods == [] then map[] else AddEntry(Collect(pods[..|pods| - 1], entry), entry(pods[|pods| - 1]))
  }

  function LiveSet(pods: seq<Pod>, config: Config): PodSet {
    Collect(pods, pod => LiveEntry(pod, config))
  }

  predicate HasId(entry: Option<PodInfo>, id: PodId) {
    entry.Some? && entry.value.Id() == id
  }

  lemma {:induction false} CollectCharacterised(pods: seq<Pod>, entry: Pod -> Option<PodInfo>, info: PodInfo)
    ensures info.Id() in Collect(pods, entry) <==> exists i :: 0 <= i < |pods| && HasId(entry(pods[i]), info.Id())
    ensures info.Id() in Collect(pods, entry) && Collect(pods, entry)[info.Id()] == info
            <==> exists i :: && 0 <= i < |pods|
                             && entry(pods[i]) == Some(info)
                             && forall j :: 0 <= j < i ==> !HasId(entry(pods[j]), info.Id())
  {
    if pods == [] {
    } else {
      var init, last := pods[..|pods| - 1], |pods| - 1;
      CollectCharacterised(init, entry, info);
      assert forall i :: 0 <= i < last ==> init[i] == pods[i];
    }
  }

  /** The live set holds exactly the identities some included pod has, each with its first entry. */
  lemma LiveSetCharacterised(pods: seq<Pod>, config: Config, info: PodInfo)
    ensures info.Id() in LiveSet(pods, config)
            <==> exists i :: 0 <= i < |pods| && HasId(LiveEntry(pods[i], config), info.Id())
    ensures info.Id() in LiveSet(pods, config) && LiveSet(pods, config)[info.Id()] == info
            <==> exists i :: && 0 <= i < |pods|
                             && LiveEntry(pods[i], config) == Some(info)
                             && forall j :: 0 <= j < i ==> !HasId(LiveEntry(pods[j], config), info.Id())
  {
    CollectCharacterised(pods, pod => LiveEntry(pod, config), info);
  }

  method BuildLivePodSet(pods: seq<Pod>, config: Config) returns (live: PodSet)
    ensures live == LiveSet(pods, config)
  {
    live := map[];
    for n := 0 to |pods|
      invariant live == LiveSet(pods[..n], config)
    {
      assert pods[..n + 1][..n] == pods[..n];
      if !ShouldInclude(pods[n], config) {
        continue;
      }
      if pods[n].deleting {
        continue;
      }
      var info := FromPod(pods[n], config);
      if info.Some? {
        live := Insert(live, info.value);
      }
    }
    assert pods[..|pods|] == pods;
  }

  function Filter(pods: seq<Pod>, keep: Pod -> bool): seq<Pod> {
    if pods == [] then []
    else
      var rest := Filter(pods[..|pods| - 1], keep);
      if keep(pods[|pods| - 1]) then rest + [pods[|pods| - 1]] else rest
  }

  /** The API server's answer to a list call with the given selector. */
  function ServerList(pods: seq<Pod>, selector: Labels): seq<Pod> {
    Filter(pods, pod => ServerMatches(pod, selector))
  }

  lemma {:induction false} CollectIgnoresEmptyEntries(pods: seq<Pod>, keep: Pod -> bool, entry: Pod -> Option<PodInfo>)
    requires forall pod :: !keep(pod) ==> entry(pod) == None
    ensures Collect(Filter(pods, keep), entry) == Collect(pods, entry)
  {
    if pods == [] {
    } else {
      var init, last := pods[..|pods| - 1], pods[|pods| - 1];
      CollectIgnoresEmptyEntries(init, keep, entry);
      var kept := Filter(init, keep);
      assert (kept + [last])[..|kept|] == kept;
    }
  }

  /** Any sound server-side filter loses nothing: the live set is that of the unfiltered list. */
  lemma SoundFilterLosesNothing(pods: seq<Pod>, config: Config, selector: Labels)
    requires SoundFilter(config, selector)
    ensures LiveSet(ServerList(pods, selector), config) == LiveSet(pods, config)
  {
    CollectIgnoresEmptyEntries(pods, pod => ServerMatches(pod, selector), pod => LiveEntry(pod, config));
  }

  lemma ServerFilterLosesNothing(pods: seq<Pod>, config: Config)
    ensures LiveSet(ServerList(pods, ListLabelSelector(config)), config) == LiveSet(pods, config)
  {
    ListSelectorSound(config);
    SoundFilterLosesNothing(pods, config, ListLabelSelector(config));
  }
}
