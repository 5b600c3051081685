/** What the worker registry is asked for, in terms of the pods: addresses, roles, ports and models written out. */
module Workers {
  import opened Text
  import opened Pods
  import opened Discovery
  import opened Refinement
  import opened Interleaving

  /** The worker of a pod: at its address, for its model, and in PD mode in its role. */
  predicate Serves(env: Env, w: WorkerSpec, pod: PodInfo) {
    && w.url == "http://" + pod.ip + ":" + Decimal(env.port)
    && w.servedModelName == pod.modelIdOverride
    && w.workerType == (if env.pdMode then pod.podType else Regular)
    && (w.bootstrapPort.Some? ==> env.pdMode && pod.podType == Prefill)
    && (env.pdMode && pod.podType == Prefill ==> w.bootstrapPort == pod.bootstrapPort)
  }

  lemma SpecServes(env: Env, pod: PodInfo)
    ensures Serves(env, SpecOf(env, pod), pod)
  {
  }

  lemma ServesOnce(env: Env, w: WorkerSpec, pod: PodInfo)
    ensures Serves(env, w, pod) <==> w == SpecOf(env, pod)
  {
  }

  /** `w` is the last accepted addition at its address, and no removal of it was accepted after. */
  ghost predicate LastAdded(log: seq<Submission>, w: WorkerSpec) {
    exists n :: AddedAt(log, w, n)
  }

  ghost predicate AddedAt(log: seq<Submission>, w: WorkerSpec, n: int) {
    && 0 <= n < |log| && log[n] == Submission(AddWorker(w), Accepted)
    && forall m :: n < m < |log| ==> Spares(log[m], w.url)
  }

  predicate Spares(s: Submission, url: string) {
    s.outcome == Accepted ==> (match s.job case AddWorker(w) => w.url != url case RemoveWorker(u) => u != url)
  }

  /** The registry holds exactly the workers so added. */
  lemma {:induction false} RegistryIsLast(log: seq<Submission>, w: WorkerSpec)
    ensures w.url in Registered(log) && Registered(log)[w.url] == w <==> LastAdded(log, w)
  {
    if log == [] {
    } else {
      var init, last := log[..|log| - 1], |log| - 1;
      RegistryIsLast(init, w);
      if Spares(log[last], w.url) {
        if n :| AddedAt(init, w, n) {
          assert AddedAt(log, w, n);
        }
        if n :| AddedAt(log, w, n) {
          assert AddedAt(init, w, n);
        }
      } else if log[last].job == AddWorker(w) {
        assert AddedAt(log, w, last);
      } else {
        assert forall n :: 0 <= n < last && AddedAt(log, w, n) ==> Spares(log[last], w.url);
      }
    }
  }

  /** A registered worker has a tracked pod, a tracked pod has its worker. */
  lemma RefinesServes(env: Env, st: State)
    requires Refines(env, st)
    ensures forall k :: k in st.tracked ==> exists w :: Serves(env, w, st.tracked[k]) && LastAdded(st.log, w)
    ensures forall w :: LastAdded(st.log, w) ==> exists k :: k in st.tracked && Serves(env, w, st.tracked[k])
  {
    var wanted, reg := Specs(env, st.tracked), Registered(st.log);
    forall k | k in st.tracked
      ensures exists w :: Serves(env, w, st.tracked[k]) && LastAdded(st.log, w)
    {
      assert k in wanted;
      SpecServes(env, st.tracked[k]);
      RegistryIsLast(st.log, wanted[k]);
    }
    forall w | LastAdded(st.log, w)
      ensures exists k :: k in st.tracked && Serves(env, w, st.tracked[k])
    {
      RegistryIsLast(st.log, w);
      var k :| k in wanted && wanted[k].url == w.url;
      SpecServes(env, st.tracked[k]);
    }
  }

  /**
   * After every failure-free run of handlers and reconciliations: each tracked pod has a worker at its address, in its
   * role, with its bootstrap port and model, and there are no other workers.
   */
  lemma WorkersServePods(env: Env, cs: seq<Command>, ipOf: PodId -> string)
    requires Legal(env, START, cs)
    requires DistinctThroughout(env, START, ExpandAll(cs)) && FixedIps(ExpandAll(cs), ipOf)
    requires forall n :: 0 <= n < |ExecAll(env, START, cs).log| ==> env.answer(n) == Accepted
    ensures var end := ExecAll(env, START, cs);
            && (forall k :: k in end.tracked ==> exists w :: Serves(env, w, end.tracked[k]) && LastAdded(end.log, w))
            && (forall w :: LastAdded(end.log, w) ==> exists k :: k in end.tracked && Serves(env, w, end.tracked[k]))
  {
    JobLogRefinement(env, cs, ipOf);
    RefinesServes(env, ExecAll(env, START, cs));
  }

  // ---------------------------------------------------------------- one event

  /** The pod events that are acted on. */
  predicate Acted(st: State, pod: PodInfo) {
    pod.isReady && pod.status == "Running" && forall k :: k in st.tracked ==> k != PodId(pod.name, pod.uid)
  }

  /** One event submits nothing, or an addition that serves the pod, after removing the worker of a tracked namesake. */
  lemma EventSubmits(env: Env, st: State, pod: PodInfo)
    requires UniqueNames(st.tracked)
    ensures var log := HandleEvent(env, st, pod).log;
            && (!Acted(st, pod) ==> log == st.log)
            && (Acted(st, pod) && (forall k :: k in st.tracked ==> k.name != pod.name) ==>
                  exists w :: Serves(env, w, pod) && log == st.log + [Submission(AddWorker(w), env.answer(|st.log|))])
            && (forall k :: Acted(st, pod) && k in st.tracked && k.name == pod.name ==>
                  exists w :: Serves(env, w, pod) && log == st.log
                    + [Submission(RemoveWorker("http://" + st.tracked[k].ip + ":" + Decimal(env.port)),
                                  env.answer(|st.log|))]
                    + [Submission(AddWorker(w), env.answer(|st.log| + 1))])
  {
    SpecServes(env, pod);
    if k :| Acted(st, pod) && k in st.tracked && k.name == pod.name {
      EvictedUnique(st.tracked, pod, k);
    }
  }

  // ---------------------------------------------------------------- every interleaving

  lemma {:induction false} RecordedAdd(env: Env, history: seq<Mark>, n: nat) returns (i: nat)
    requires n < |SubmissionsOf(env, history)| && SubmissionsOf(env, history)[n].job.AddWorker?
    ensures i < |history| && history[i].SubmittedAdd?
    ensures SubmissionsOf(env, history)[n].job.spec == SpecOf(env, history[i].pod)
  {
    var init := history[..|history| - 1];
    if n < |SubmissionsOf(env, init)| {
      i := RecordedAdd(env, init, n);
    } else {
      i := |history| - 1;
    }
  }

  /** Over every interleaving, with any answers: what is submitted serves a pod that was inserted before. */
  lemma AdditionsServe(env: Env, acts: seq<Action>, n: nat)
    requires Possible(env, INITIAL, acts)
    requires var log := RunActions(env, INITIAL, acts).shared.log; n < |log| && log[n].job.AddWorker?
    ensures var end := RunActions(env, INITIAL, acts);
            exists i :: 0 <= i < |end.history| && end.history[i].Inserted?
                        && Serves(env, end.shared.log[n].job.spec, end.history[i].pod)
  {
    var end := RunActions(env, INITIAL, acts);
    LogIsHistory(env, acts);
    var i := RecordedAdd(env, end.history, n);
    AdditionHasInsertion(env, acts, i);
    SpecServes(env, end.history[i].pod);
    assert end.history[end.history[i].at].Inserted?;
  }
}
