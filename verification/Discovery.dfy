/**
 * The tracked set, the worker job queue and the handlers that keep them in step.
 *
 * Each handler is given twice: as a function on states, which the theorems are about,
 * and as a method of `PodTracker`, which updates the shared set in place and is proved equal to it.
 */
module Discovery {
  import opened Text
  import opened Pods

  datatype WorkerSpec = WorkerSpec(
    url: string, workerType: PodType, bootstrapPort: Option<nat>, servedModelName: Option<string>)
  datatype Job = AddWorker(spec: WorkerSpec) | RemoveWorker(url: string)

  /** What comes of handing a job to the queue; `NoQueue` is the queue that is not initialised yet. */
  datatype Outcome = Accepted | Rejected | NoQueue
  datatype Submission = Submission(job: Job, outcome: Outcome)

  /** `answer(n)` is the queue's answer to the n-th job of the run: an arbitrary oracle. */
  datatype Env = Env(port: nat, pdMode: bool, answer: nat -> Outcome)

  /** The shared state: the tracked pods and every submission made so far, in order. */
  datatype State = State(tracked: PodSet, log: seq<Submission>)

  const START := State(map[], [])

  function SpecOf(env: Env, pod: PodInfo): WorkerSpec {
    WorkerSpec(
      pod.WorkerUrl(env.port),
      if env.pdMode then pod.podType else Regular,
      if env.pdMode && pod.podType == Prefill then pod.bootstrapPort else None,
      pod.modelIdOverride)
  }

  function Submit(env: Env, st: State, job: Job): State {
    st.(log := st.log + [Submission(job, env.answer(|st.log|))])
  }

  function Answered(st: State): Outcome
    requires st.log != []
  {
    st.log[|st.log| - 1].outcome
  }

  function Untrack(st: State, id: PodId): State {
    st.(tracked := st.tracked - {id})
  }

  // ---------------------------------------------------------------- handlers

  /** A tracked pod that `pod` replaces: same name, another uid. */
  predicate IsRestartOf(prior: PodId, pod: PodInfo) {
    prior.name == pod.name && prior.uid != pod.uid
  }

  /** The tracked entry that makes way for `pod`, if any; which one, if several, is left open. */
  ghost function Evicted(tracked: PodSet, pod: PodInfo): Option<PodId>
  {
    if exists k :: k in tracked && IsRestartOf(k, pod) then
      var k :| k in tracked && IsRestartOf(k, pod);
      Some(k)
    else None
  }

  ghost function Replace(tracked: PodSet, pod: PodInfo): PodSet {
    var prior := Evicted(tracked, pod);
    (if prior.Some? then tracked - {prior.value} else tracked)[pod.Id() := pod]
  }

  /** `handle_pod_event`: evict a restarted predecessor, track the pod, submit the jobs, roll back on rejection. */
  ghost function HandleEvent(env: Env, st: State, pod: PodInfo): State {
    if !pod.IsHealthy() || pod.Id() in st.tracked then st
    else
      var prior := Evicted(st.tracked, pod);
      var swapped := st.(tracked := Replace(st.tracked, pod));
      var evicted :=
        if prior.Some? then Submit(env, swapped, RemoveWorker(st.tracked[prior.value].WorkerUrl(env.port)))
        else swapped;
      var added := Submit(env, evicted, AddWorker(SpecOf(env, pod)));
      if Answered(added) == Rejected then Untrack(added, pod.Id()) else added
  }

  /** `handle_pod_deletion`: untrack first, then submit the removal of the URL in the event. */
  function HandleDeletion(env: Env, st: State, pod: PodInfo): State {
    if pod.Id() !in st.tracked then st
    else Submit(env, Untrack(st, pod.Id()), RemoveWorker(pod.WorkerUrl(env.port)))
  }

  /** One stale pod of a reconciliation: untracked only once its removal is accepted. */
  function DropStale(env: Env, st: State, pod: PodInfo): State {
    var asked := Submit(env, st, RemoveWorker(pod.WorkerUrl(env.port)));
    if Answered(asked) == Accepted then Untrack(asked, pod.Id()) else asked
  }

  // ---------------------------------------------------------------- reconciliation

  function Stale(tracked: PodSet, live: PodSet): PodSet {
    tracked - live.Keys
  }

  function Missing(tracked: PodSet, live: PodSet): PodSet {
    map k | k in live && k !in tracked && live[k].IsHealthy() :: live[k]
  }

  /** `s` lists the elements of `m`, each once, in some order. */
  ghost predicate Enumerates(s: seq<PodInfo>, m: PodSet) {
    && (forall i :: 0 <= i < |s| ==> s[i].Id() in m && m[s[i].Id()] == s[i])
    && (forall i, j :: 0 <= i < j < |s| ==> s[i].Id() != s[j].Id())
    && (forall k :: k in m ==> m[k] in s)
  }

  function DropAll(env: Env, st: State, stale: seq<PodInfo>): State
    decreases |stale|
  {
    if stale == [] then st else DropAll(env, DropStale(env, st, stale[0]), stale[1..])
  }

  ghost function AddAll(env: Env, st: State, missing: seq<PodInfo>): State
    decreases |missing|
  {
    if missing == [] then st else AddAll(env, HandleEvent(env, st, missing[0]), missing[1..])
  }

  /** How many of the additions left the tracked set larger than they found it. */
  ghost function AddedCount(env: Env, st: State, missing: seq<PodInfo>): nat
    decreases |missing|
  {
    if missing == [] then 0
    else
      var next := HandleEvent(env, st, missing[0]);
      (if |next.tracked| > |st.tracked| then 1 else 0) + AddedCount(env, next, missing[1..])
  }

  /** One undisturbed reconciliation, the two differences taken in the given orders. */
  ghost function Reconcile(env: Env, st: State, stale: seq<PodInfo>, missing: seq<PodInfo>): State {
    AddAll(env, DropAll(env, st, stale), missing)
  }

  // ---------------------------------------------------------------- invariant

  predicate UniqueNames(tracked: PodSet) {
    forall a, b :: a in tracked && b in tracked && a.name == b.name ==> a == b
  }

  lemma EventKeepsUniqueNames(env: Env, st: State, pod: PodInfo)
    requires UniqueNames(st.tracked)
    ensures UniqueNames(HandleEvent(env, st, pod).tracked)
  {
  }

  /** With unique names the predecessor is determined by its description. */
  lemma EvictedUnique(tracked: PodSet, pod: PodInfo, k: PodId)
    requires UniqueNames(tracked) && k in tracked && IsRestartOf(k, pod)
    ensures Evicted(tracked, pod) == Some(k)
  {
  }

  // ---------------------------------------------------------------- the shared object

  method AnyOrder(m: PodSet) returns (s: seq<PodInfo>)
    ensures Enumerates(s, m)
  {
    s := [];
    var rest := m.Keys;
    while rest != {}
      invariant rest <= m.Keys
      invariant forall i :: 0 <= i < |s| ==> s[i].Id() in m && m[s[i].Id()] == s[i] && s[i].Id() !in rest
      invariant forall i, j :: 0 <= i < j < |s| ==> s[i].Id() != s[j].Id()
      invariant forall k :: k in m && k !in rest ==> m[k] in s
    {
      var k :| k in rest;
      s, rest := s + [m[k]], rest - {k};
    }
  }

  method ComputeReconciliationDiff(tracked: PodSet, live: PodSet) returns (stale: seq<PodInfo>, missing: seq<PodInfo>)
    ensures Enumerates(stale, Stale(tracked, live))
    ensures Enumerates(missing, Missing(tracked, live))
  {
    stale := AnyOrder(Stale(tracked, live));
    missing := AnyOrder(Missing(tracked, live));
  }

  class PodTracker {
    const env: Env
    var tracked: PodSet
    var log: seq<Submission>

    ghost function Current(): State
      reads this
    {
      State(tracked, log)
    }

    ghost predicate Valid()
      reads this
    {
      UniqueNames(tracked)
    }

    constructor (env: Env)
      ensures Valid() && Current() == START && this.env == env
    {
      this.env := env;
      tracked, log := map[], [];
    }

    method SubmitJob(job: Job) returns (outcome: Outcome)
      modifies this`log
      ensures Current() == Submit(env, old(Current()), job) && outcome == Answered(Current())
    {
      outcome := env.answer(|log|);
      log := log + [Submission(job, outcome)];
    }

    method HandlePodEvent(pod: PodInfo)
      requires Valid()
      modifies this
      ensures Valid() && Current() == HandleEvent(env, old(Current()), pod)
    {
      EventKeepsUniqueNames(env, Current(), pod);
      if pod.IsHealthy() && pod.Id() !in tracked {
        var prior := FindRestarted(pod);
        if prior.Some? {
          tracked := tracked - {prior.value.Id()};
        }
        tracked := tracked[pod.Id() := pod];
        if prior.Some? {
          var _ := SubmitJob(RemoveWorker(prior.value.WorkerUrl(env.port)));
        }
        var outcome := SubmitJob(AddWorker(SpecOf(env, pod)));
        if outcome == Rejected {
          tracked := tracked - {pod.Id()};
        }
      }
    }

    method FindRestarted(pod: PodInfo) returns (found: Option<PodInfo>)
      requires Valid()
      ensures found.Some? <==> Evicted(tracked, pod).Some?
      ensures found.Some? ==> found.value.Id() in tracked && tracked[found.value.Id()] == found.value
      ensures found.Some? ==> Evicted(tracked, pod) == Some(found.value.Id())
    {
      var rest := tracked.Keys;
      while rest != {}
        invariant rest <= tracked.Keys
        invariant forall k :: k in tracked && k !in rest ==> !IsRestartOf(k, pod)
      {
        var k :| k in rest;
        if IsRestartOf(k, pod) {
          EvictedUnique(tracked, pod, k);
          return Some(tracked[k]);
        }
        rest := rest - {k};
      }
      found := None;
    }

    method HandlePodDeletion(pod: PodInfo)
      requires Valid()
      modifies this
      ensures Valid() && Current() == HandleDeletion(env, old(Current()), pod)
    {
      if pod.Id() in tracked {
        tracked := tracked - {pod.Id()};
        var _ := SubmitJob(RemoveWorker(pod.WorkerUrl(env.port)));
      }
    }

    method DropStalePods(stale: seq<PodInfo>)
      requires Valid()
      modifies this
      ensures Valid() && Current() == DropAll(env, old(Current()), stale)
    {
      for i := 0 to |stale|
        invariant Valid()
        invariant DropAll(env, old(Current()), stale) == DropAll(env, Current(), stale[i..])
      {
        var outcome := SubmitJob(RemoveWorker(stale[i].WorkerUrl(env.port)));
        if outcome == Accepted {
          tracked := tracked - {stale[i].Id()};
        }
      }
    }

    method AddMissingPods(missing: seq<PodInfo>) returns (added: nat)
      requires Valid()
      modifies this
      ensures Valid() && Current() == AddAll(env, old(Current()), missing)
      ensures added == AddedCount(env, old(Current()), missing)
    {
      added := 0;
      for i := 0 to |missing|
        invariant Valid()
        invariant AddAll(env, old(Current()), missing) == AddAll(env, Current(), missing[i..])
        invariant AddedCount(env, old(Current()), missing) == added + AddedCount(env, Current(), missing[i..])
      {
        var before := |tracked|;
        HandlePodEvent(missing[i]);
        if |tracked| > before {
          added := added + 1;
        }
      }
    }

    /** `cluster` is what the API server holds at the list call, or `None` if that call fails. */
    method ReconcilePods(cluster: Option<seq<Pod>>, config: Config)
      returns (added: nat, ghost stale: seq<PodInfo>, ghost missing: seq<PodInfo>)
      requires Valid()
      modifies this
      ensures Valid()
      ensures cluster.None? ==> Current() == old(Current())
      ensures cluster.Some? ==> Enumerates(stale, Stale(old(tracked), LiveSet(cluster.value, config)))
      ensures cluster.Some? ==> Enumerates(missing, Missing(old(tracked), LiveSet(cluster.value, config)))
      ensures cluster.Some? ==> Current() == Reconcile(env, old(Current()), stale, missing)
      ensures cluster.Some? ==> added == AddedCount(env, DropAll(env, old(Current()), stale), missing)
    {
      added, stale, missing := 0, [], [];
      if cluster.None? {
        return;
      }
      var live := BuildLivePodSet(ServerList(cluster.value, ListLabelSelector(config)), config);
      ServerFilterLosesNothing(cluster.value, config);
      var toDrop, toAdd := ComputeReconciliationDiff(tracked, live);
      stale, missing := toDrop, toAdd;
      if toDrop == [] && toAdd == [] {
        return;
      }
      DropStalePods(toDrop);
      added := AddMissingPods(toAdd);
    }
  }
}
