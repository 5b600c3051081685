/** From the pods that the cluster lists to the workers that are asked for, on the fields of the listed pods. */
module Listings {
  import opened Text
  import opened Pods
  import opened Discovery
  import opened Convergence
  import opened Namesakes
  import opened Workers

  // ---------------------------------------------------------------- what a listed pod says

  /** The pod has all of these labels, and there are some. */
  ghost predicate Carries(pod: Pod, labels: Labels) {
    && labels != map[]
    && forall key, value :: (key, value) in labels.Items ==> pod.labels.Some? && (key, value) in pod.labels.value.Items
  }

  ghost predicate Chosen(pod: Pod, config: Config) {
    if config.pdMode then Carries(pod, config.prefillSelector) || Carries(pod, config.decodeSelector)
    else Carries(pod, config.selector)
  }

  /** The pod stands for an identity: it is chosen, is not being deleted, has an address and that name and uid. */
  ghost predicate StandsFor(pod: Pod, config: Config, id: PodId) {
    && Chosen(pod, config) && !pod.deleting
    && pod.name == Some(id.name) && pod.uid == Some(id.uid) && pod.status.Some? && pod.status.value.podIp.Some?
  }

  ghost predicate FirstOf(pods: seq<Pod>, config: Config, id: PodId, i: int) {
    && 0 <= i < |pods| && StandsFor(pods[i], config, id)
    && forall j :: 0 <= j < i ==> !StandsFor(pods[j], config, id)
  }

  predicate IsUp(pod: Pod) {
    && pod.status.Some? && pod.status.value.phase == Some("Running")
    && pod.status.value.conditions.Some? && PodCondition("Ready", "True") in pod.status.value.conditions.value
  }

  ghost predicate NumberAt(annotations: Option<Labels>, key: string, n: nat) {
    annotations.Some? && key in annotations.value && WritesPort(annotations.value[key], n)
  }

  /** The model that a pod is to serve under. */
  ghost predicate ModelIs(pod: Pod, source: Option<ModelIdSource>, model: Option<string>) {
    match source
    case None => model == None
    case Some(Namespace) => model == pod.namespace
    case Some(Label(key)) =>
      forall m :: model == Some(m) <==> pod.labels.Some? && (key, m) in pod.labels.value.Items
    case Some(Annotation(key)) =>
      forall m :: model == Some(m) <==> pod.annotations.Some? && (key, m) in pod.annotations.value.Items
  }

  ghost predicate RoleIs(pod: Pod, config: Config, role: PodType) {
    match role
    case Prefill => config.pdMode && Carries(pod, config.prefillSelector)
    case Decode => config.pdMode && !Carries(pod, config.prefillSelector) && Carries(pod, config.decodeSelector)
    case Regular => !config.pdMode
  }

  /** The worker asked for a listed pod. */
  ghost predicate AskedFor(pod: Pod, config: Config, port: nat, w: WorkerSpec) {
    && pod.status.Some? && pod.status.value.podIp.Some?
    && w.url == "http://" + pod.status.value.podIp.value + ":" + Decimal(port)
    && RoleIs(pod, config, w.workerType)
    && (forall n: nat :: w.bootstrapPort == Some(n)
          <==> w.workerType == Prefill && NumberAt(pod.annotations, config.bootstrapPortAnnotation, n))
    && ModelIs(pod, config.modelIdSource, w.servedModelName)
  }

  // ---------------------------------------------------------------- what is read from a listed pod

  lemma CarriesIs(pod: Pod, labels: Labels)
    ensures Carries(pod, labels) <==> MatchesSelector(pod, labels)
  {
    if Carries(pod, labels) {
      var k :| k in labels;
      assert (k, labels[k]) in labels.Items;
      forall key | key in labels
        ensures pod.labels.Some? && key in pod.labels.value && pod.labels.value[key] == labels[key]
      {
        assert (key, labels[key]) in labels.Items;
      }
    }
  }

  lemma ChosenIs(pod: Pod, config: Config)
    ensures Chosen(pod, config) <==> ShouldInclude(pod, config)
  {
    CarriesIs(pod, config.selector);
    CarriesIs(pod, config.prefillSelector);
    CarriesIs(pod, config.decodeSelector);
  }

  lemma StandsForIs(pod: Pod, config: Config, id: PodId)
    ensures StandsFor(pod, config, id) <==> HasId(LiveEntry(pod, config), id)
  {
    ChosenIs(pod, config);
  }

  lemma PortIs(pod: Pod, key: string, n: nat)
    ensures PortAnnotation(pod, key) == Some(n) <==> NumberAt(pod.annotations, key, n)
  {
    if pod.annotations.Some? && key in pod.annotations.value {
      ParsedIff(pod.annotations.value[key], n);
    }
  }

  lemma ItemIs(m: Labels, key: string, value: string)
    ensures (key, value) in m.Items <==> key in m && m[key] == value
  {
  }

  lemma ModelOf(pod: Pod, source: Option<ModelIdSource>)
    ensures ModelIs(pod, source, if source.Some? then ExtractModelId(source.value, pod) else None)
  {
  }

  lemma ModelOnce(pod: Pod, source: Option<ModelIdSource>, a: Option<string>, b: Option<string>)
    requires ModelIs(pod, source, a) && ModelIs(pod, source, b)
    ensures a == b
  {
    if a.Some? {
      assert b == Some(a.value);
    }
    if b.Some? {
      assert a == Some(b.value);
    }
  }

  lemma RoleOf(pod: Pod, config: Config)
    requires Chosen(pod, config) && FromPod(pod, config).Some?
    ensures RoleIs(pod, config, FromPod(pod, config).value.podType)
  {
    CarriesIs(pod, config.prefillSelector);
    CarriesIs(pod, config.decodeSelector);
  }

  lemma HealthyIs(pod: Pod, config: Config)
    requires FromPod(pod, config).Some?
    ensures FromPod(pod, config).value.IsHealthy() <==> IsUp(pod)
  {
    var conditions := pod.status.value.conditions;
    if conditions.Some? {
      assert forall c :: c in conditions.value ==> (ReadyCondition(c) <==> c == PodCondition("Ready", "True"));
    }
  }

  /** Serving what was read from a pod is what is asked for it. */
  lemma AskedIffServes(env: Env, pod: Pod, config: Config, w: WorkerSpec)
    requires env.pdMode == config.pdMode && Chosen(pod, config) && FromPod(pod, config).Some?
    ensures AskedFor(pod, config, env.port, w) <==> Serves(env, w, FromPod(pod, config).value)
  {
    var info := FromPod(pod, config).value;
    RoleOf(pod, config);
    ModelOf(pod, config.modelIdSource);
    forall n: nat
      ensures PortAnnotation(pod, config.bootstrapPortAnnotation) == Some(n)
              <==> NumberAt(pod.annotations, config.bootstrapPortAnnotation, n)
    {
      PortIs(pod, config.bootstrapPortAnnotation, n);
    }
    if AskedFor(pod, config, env.port, w) {
      ModelOnce(pod, config.modelIdSource, w.servedModelName, info.modelIdOverride);
      PortOnce(pod, config, w.bootstrapPort, info.bootstrapPort, w.workerType);
    }
  }

  lemma PortOnce(pod: Pod, config: Config, a: Option<nat>, b: Option<nat>, role: PodType)
    requires forall n: nat :: a == Some(n)
               <==> role == Prefill && NumberAt(pod.annotations, config.bootstrapPortAnnotation, n)
    requires forall n: nat :: b == Some(n)
               <==> role == Prefill && NumberAt(pod.annotations, config.bootstrapPortAnnotation, n)
    ensures a == b
  {
    if a.Some? {
      assert b == Some(a.value);
    }
    if b.Some? {
      assert a == Some(b.value);
    }
  }

  // ---------------------------------------------------------------- one cycle over a list

  /** The worker is asked for by a submission from index `from` on. */
  ghost predicate AskedSince(log: seq<Submission>, from: nat, w: WorkerSpec) {
    exists n :: from <= n < |log| && log[n].job == AddWorker(w)
  }

  lemma AddStepAsks(env: Env, st: State, pod: PodInfo, w: WorkerSpec)
    requires pod.IsHealthy() && pod.Id() !in st.tracked
    ensures AskedSince(HandleEvent(env, st, pod).log, |st.log|, w) <==> Serves(env, w, pod)
  {
    ServesOnce(env, w, pod);
    var log := HandleEvent(env, st, pod).log;
    assert log[|log| - 1].job == AddWorker(SpecOf(env, pod));
    assert forall n :: |st.log| <= n < |log| - 1 ==> log[n].job.RemoveWorker?;
  }

  lemma {:induction false} AddAllGrows(env: Env, st: State, missing: seq<PodInfo>, live: PodSet)
    requires Addable(missing, st.tracked, live)
    ensures st.log <= AddAll(env, st, missing).log
    decreases |missing|
  {
    if missing == [] {
    } else {
      AddStepLog(env, st, missing[0]);
      StillWanted(env, st, missing, live);
      AddAllGrows(env, HandleEvent(env, st, missing[0]), missing[1..], live);
    }
  }

  lemma ServedFirst(env: Env, missing: seq<PodInfo>, w: WorkerSpec)
    requires missing != []
    ensures (exists pod :: pod in missing && Serves(env, w, pod))
            <==> Serves(env, w, missing[0]) || exists pod :: pod in missing[1..] && Serves(env, w, pod)
  {
    assert missing == [missing[0]] + missing[1..];
  }

  lemma {:induction false} AddAllAsks(env: Env, st: State, missing: seq<PodInfo>, live: PodSet, w: WorkerSpec)
    requires Addable(missing, st.tracked, live)
    ensures AskedSince(AddAll(env, st, missing).log, |st.log|, w)
            <==> exists pod :: pod in missing && Serves(env, w, pod)
    decreases |missing|
  {
    if missing == [] {
    } else {
      var next, end := HandleEvent(env, st, missing[0]), AddAll(env, st, missing);
      AddStepLog(env, st, missing[0]);
      AddStepAsks(env, st, missing[0], w);
      StillWanted(env, st, missing, live);
      AddAllGrows(env, next, missing[1..], live);
      AddAllAsks(env, next, missing[1..], live, w);
      AskedSplit(next.log, end.log, |st.log|, w);
      ServedFirst(env, missing, w);
    }
  }

  lemma AskedSplit(log: seq<Submission>, longer: seq<Submission>, from: nat, w: WorkerSpec)
    requires log <= longer && from <= |log|
    ensures AskedSince(longer, from, w) <==> AskedSince(log, from, w) || AskedSince(longer, |log|, w)
  {
    if AskedSince(log, from, w) {
      var n :| from <= n < |log| && log[n].job == AddWorker(w);
      assert longer[n].job == AddWorker(w);
    }
    if AskedSince(longer, from, w) && !AskedSince(longer, |log|, w) {
      var n :| from <= n < |longer| && longer[n].job == AddWorker(w);
      assert log[n].job == AddWorker(w);
    }
  }

  lemma {:induction false} DropAllAsks(env: Env, st: State, stale: seq<PodInfo>)
    ensures var log := DropAll(env, st, stale).log;
            st.log <= log && forall n :: |st.log| <= n < |log| ==> log[n].job.RemoveWorker?
    decreases |stale|
  {
    if stale == [] {
    } else {
      DropAllAsks(env, DropStale(env, st, stale[0]), stale[1..]);
    }
  }

  /** The missing pods are those read from the first pod of each identity that is up and not tracked. */
  lemma MissingIs(pods: seq<Pod>, config: Config, tracked: PodSet, missing: seq<PodInfo>, info: PodInfo)
    requires Enumerates(missing, Missing(tracked, LiveSet(pods, config)))
    ensures info in missing
            <==> info.Id() !in tracked
                 && exists i :: && FirstOf(pods, config, info.Id(), i) && IsUp(pods[i])
                                && FromPod(pods[i], config) == Some(info)
  {
    var live := LiveSet(pods, config);
    LiveSetCharacterised(pods, config, info);
    forall j | 0 <= j < |pods|
      ensures StandsFor(pods[j], config, info.Id()) <==> HasId(LiveEntry(pods[j], config), info.Id())
      ensures FromPod(pods[j], config) == Some(info) ==> (info.IsHealthy() <==> IsUp(pods[j]))
    {
      StandsForIs(pods[j], config, info.Id());
      if FromPod(pods[j], config) == Some(info) {
        HealthyIs(pods[j], config);
      }
    }
  }

  /** Somebody who is listed, up and not tracked yet asks for the worker. */
  ghost predicate Wants(pods: seq<Pod>, config: Config, tracked: PodSet, port: nat, w: WorkerSpec, id: PodId, i: int) {
    id !in tracked && FirstOf(pods, config, id, i) && IsUp(pods[i]) && AskedFor(pods[i], config, port, w)
  }

  lemma MissingWants(env: Env, pods: seq<Pod>, config: Config, tracked: PodSet, missing: seq<PodInfo>, w: WorkerSpec)
    requires env.pdMode == config.pdMode && Enumerates(missing, Missing(tracked, LiveSet(pods, config)))
    ensures (exists info :: info in missing && Serves(env, w, info))
            <==> exists id, i :: Wants(pods, config, tracked, env.port, w, id, i)
  {
    if info :| info in missing && Serves(env, w, info) {
      MissingIs(pods, config, tracked, missing, info);
      var i :| FirstOf(pods, config, info.Id(), i) && IsUp(pods[i]) && FromPod(pods[i], config) == Some(info);
      AskedIffServes(env, pods[i], config, w);
      assert Wants(pods, config, tracked, env.port, w, info.Id(), i);
    }
    if id, i :| Wants(pods, config, tracked, env.port, w, id, i) {
      StandsForIs(pods[i], config, id);
      var info := FromPod(pods[i], config).value;
      AskedIffServes(env, pods[i], config, w);
      MissingIs(pods, config, tracked, missing, info);
      assert info in missing;
    }
  }

  /**
   * A cycle over a list, from any tracked set and under any answers: a worker is asked for exactly if it is that of the
   * first listed pod of an identity that is not tracked, chosen by its labels, not being deleted, running and ready.
   */
  lemma CycleAsks(env: Env, st: State, pods: seq<Pod>, config: Config, stale: seq<PodInfo>, missing: seq<PodInfo>,
                  w: WorkerSpec)
    requires env.pdMode == config.pdMode
    requires var live := LiveSet(pods, config);
             Enumerates(stale, Stale(st.tracked, live)) && Enumerates(missing, Missing(st.tracked, live))
    ensures AskedSince(Reconcile(env, st, stale, missing).log, |st.log|, w)
            <==> exists id, i :: Wants(pods, config, st.tracked, env.port, w, id, i)
  {
    var live, mid := LiveSet(pods, config), DropAll(env, st, stale);
    CycleInputs(st.tracked, live, stale, missing);
    DropAllAsks(env, st, stale);
    DropAllKeepsOut(env, st, stale);
    StillAddable(st.tracked, mid.tracked, live, missing);
    AddAllGrows(env, mid, missing, live);
    AddAllAsks(env, mid, missing, live, w);
    AskedSplit(mid.log, AddAll(env, mid, missing).log, |st.log|, w);
    MissingWants(env, pods, config, st.tracked, missing, w);
  }

  /** The same of a tracker. */
  method ReconcileList(tracker: PodTracker, pods: seq<Pod>, config: Config)
    requires tracker.Valid() && tracker.env.pdMode == config.pdMode
    modifies tracker
    ensures forall w :: AskedSince(tracker.log, |old(tracker.log)|, w)
                        <==> exists id, i :: Wants(pods, config, old(tracker.tracked), tracker.env.port, w, id, i)
  {
    ghost var st := tracker.Current();
    var _, stale, missing := tracker.ReconcilePods(Some(pods), config);
    forall w
      ensures AskedSince(tracker.log, |st.log|, w)
              <==> exists id, i :: Wants(pods, config, st.tracked, tracker.env.port, w, id, i)
    {
      CycleAsks(tracker.env, st, pods, config, stale, missing, w);
    }
  }
}
