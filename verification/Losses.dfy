/** What goes wrong and stays wrong: workers that nobody tracks, and tracked pods that have no worker. */
module Losses {
  import opened Text
  import opened Pods
  import opened Discovery
  import opened Refinement

  // ---------------------------------------------------------------- a lost removal

  ghost predicate Orphaned(env: Env, st: State, url: string) {
    url in Registered(st.log) && forall k :: k in st.tracked ==> st.tracked[k].WorkerUrl(env.port) != url
  }

  /** A rejected removal of a deleted pod leaves its worker registered with nobody tracking it. */
  lemma RejectedDeletionOrphans(env: Env, st: State, pod: PodInfo)
    requires Refines(env, st) && DistinctIps(st.tracked) && pod.Id() in st.tracked
    requires env.answer(|st.log|) == Rejected
    ensures Orphaned(env, HandleDeletion(env, st, pod), st.tracked[pod.Id()].WorkerUrl(env.port))
  {
    IpsGiveUrls(env, st.tracked);
    var specs := Specs(env, st.tracked);
    assert pod.Id() in specs;
    RegisteredSnoc(st.log, Submission(RemoveWorker(pod.WorkerUrl(env.port)), Rejected));
    forall k | k in st.tracked && k != pod.Id()
      ensures st.tracked[k].WorkerUrl(env.port) != st.tracked[pod.Id()].WorkerUrl(env.port)
    {
      assert specs[k].url == st.tracked[k].WorkerUrl(env.port)
          && specs[pod.Id()].url == st.tracked[pod.Id()].WorkerUrl(env.port);
    }
  }

  lemma OrphanEvent(env: Env, st: State, p: PodInfo, url: string)
    requires Orphaned(env, st, url) && p.WorkerUrl(env.port) != url && p.IsHealthy() && p.Id() !in st.tracked
    ensures Orphaned(env, HandleEvent(env, st, p), url)
  {
    var next, prior := HandleEvent(env, st, p), Evicted(st.tracked, p);
    if prior.Some? {
      RestartEffect(env, st, p, prior.value);
    } else {
      RegisteredSnoc(st.log, Submission(AddWorker(SpecOf(env, p)), env.answer(|st.log|)));
    }
    assert forall k :: k in next.tracked ==>
        if k == p.Id() then next.tracked[k] == p else k in st.tracked && next.tracked[k] == st.tracked[k];
  }

  lemma OrphanRemoval(env: Env, st: State, p: PodInfo, url: string)
    requires Orphaned(env, st, url) && p.WorkerUrl(env.port) != url
    ensures Orphaned(env, HandleDeletion(env, st, p), url) && Orphaned(env, DropStale(env, st, p), url)
  {
    RegisteredSnoc(st.log, Submission(RemoveWorker(p.WorkerUrl(env.port)), env.answer(|st.log|)));
  }

  /** And no handler or reconciliation ever removes it unless an event shows a pod at that address again. */
  lemma {:induction false} OrphanForever(env: Env, st: State, ms: seq<Micro>, url: string)
    requires Orphaned(env, st, url) && DropsTrackedThroughout(env, st, ms)
    requires forall i :: 0 <= i < |ms| && !ms[i].Drop? ==> ms[i].pod.WorkerUrl(env.port) != url
    ensures Orphaned(env, Run(env, st, ms), url)
    decreases |ms|
  {
    if ms == [] {
    } else {
      var next, p := Step(env, st, ms[0]), ms[0].pod;
      assert Orphaned(env, next, url) by {
        if !ms[0].Event? {
          OrphanRemoval(env, st, p, url);
        } else if p.IsHealthy() && p.Id() !in st.tracked {
          OrphanEvent(env, st, p, url);
        }
      }
      OrphanForever(env, next, ms[1..], url);
    }
  }

  // ---------------------------------------------------------------- a lost worker

  /** A pod is tracked, but no worker is registered at its address. */
  ghost predicate Lost(env: Env, st: State, pod: PodInfo) {
    && pod.Id() in st.tracked && st.tracked[pod.Id()] == pod
    && pod.WorkerUrl(env.port) !in Registered(st.log)
  }

  /** A handler call that may change that: the pod goes, or a namesake or another pod at its address comes. */
  predicate Stirs(env: Env, pod: PodInfo, m: Micro) {
    match m
    case Event(p) =>
      p.Id() != pod.Id() && (p.name == pod.name || p.WorkerUrl(env.port) == pod.WorkerUrl(env.port))
    case Delete(p) => p.Id() == pod.Id()
    case Drop(p) => p.Id() == pod.Id()
  }

  lemma LostEvent(env: Env, st: State, pod: PodInfo, p: PodInfo)
    requires Lost(env, st, pod) && !Stirs(env, pod, Event(p)) && p.IsHealthy() && p.Id() !in st.tracked
    ensures Lost(env, HandleEvent(env, st, p), pod)
  {
    var prior := Evicted(st.tracked, p);
    if prior.Some? {
      RestartEffect(env, st, p, prior.value);
    } else {
      RegisteredSnoc(st.log, Submission(AddWorker(SpecOf(env, p)), env.answer(|st.log|)));
    }
  }

  lemma LostSubmission(env: Env, st: State, pod: PodInfo, url: string)
    requires Lost(env, st, pod)
    ensures Lost(env, Submit(env, st, RemoveWorker(url)), pod)
  {
    RegisteredSnoc(st.log, Submission(RemoveWorker(url), env.answer(|st.log|)));
  }

  lemma LostRemoval(env: Env, st: State, pod: PodInfo, p: PodInfo)
    requires Lost(env, st, pod) && p.Id() != pod.Id()
    ensures Lost(env, HandleDeletion(env, st, p), pod) && Lost(env, DropStale(env, st, p), pod)
  {
    var url := p.WorkerUrl(env.port);
    LostSubmission(env, st, pod, url);
    LostSubmission(env, Untrack(st, p.Id()), pod, url);
  }

  lemma {:induction false} LostForever(env: Env, st: State, ms: seq<Micro>, pod: PodInfo)
    requires Lost(env, st, pod) && forall i :: 0 <= i < |ms| ==> !Stirs(env, pod, ms[i])
    ensures Lost(env, Run(env, st, ms), pod)
    decreases |ms|
  {
    if ms == [] {
    } else {
      var next, p := Step(env, st, ms[0]), ms[0].pod;
      assert Lost(env, next, pod) by {
        if !ms[0].Event? {
          LostRemoval(env, st, pod, p);
        } else if p.IsHealthy() && p.Id() !in st.tracked {
          LostEvent(env, st, pod, p);
        }
      }
      LostForever(env, next, ms[1..], pod);
    }
  }

  /** The watch shows nothing of the kind, and every list has the pod and nothing else of its name or address. */
  ghost predicate Quiet(env: Env, pod: PodInfo, c: Command) {
    match c
    case PodEvent(p) => !Stirs(env, pod, Event(p))
    case PodDeletion(p) => p.Id() != pod.Id()
    case Reconciliation(live, _, _) => pod.Id() in live && forall k :: k in live ==> !Stirs(env, pod, Event(live[k]))
  }

  lemma {:induction false} DropsMembers(pods: seq<PodInfo>, i: nat)
    requires i < |Drops(pods)|
    ensures Drops(pods)[i].Drop? && Drops(pods)[i].pod in pods
  {
    if i == 0 {
    } else {
      DropsMembers(pods[1..], i - 1);
    }
  }

  lemma {:induction false} EventsMembers(pods: seq<PodInfo>, i: nat)
    requires i < |Events(pods)|
    ensures Events(pods)[i].Event? && Events(pods)[i].pod in pods
  {
    if i == 0 {
    } else {
      EventsMembers(pods[1..], i - 1);
    }
  }

  lemma QuietExpands(env: Env, st: State, c: Command, pod: PodInfo)
    requires Quiet(env, pod, c)
    requires c.Reconciliation? ==>
               Enumerates(c.stale, Stale(st.tracked, c.live)) && Enumerates(c.missing, Missing(st.tracked, c.live))
    ensures forall i :: 0 <= i < |Expand(c)| ==> !Stirs(env, pod, Expand(c)[i])
  {
    if c.Reconciliation? {
      forall i | 0 <= i < |Expand(c)|
        ensures !Stirs(env, pod, Expand(c)[i])
      {
        if i < |Drops(c.stale)| {
          DropsMembers(c.stale, i);
        } else {
          EventsMembers(c.missing, i - |Drops(c.stale)|);
        }
      }
    }
  }

  /**
   * A lost worker stays lost over every run of handlers and reconciliations, with any answers, as long as the cluster
   * shows the pod and nothing else of its name or at its address: reconciliation compares pods, not workers.
   */
  lemma {:induction false} NoReconciliationHelps(env: Env, st: State, cs: seq<Command>, pod: PodInfo)
    requires Lost(env, st, pod) && Legal(env, st, cs) && forall i :: 0 <= i < |cs| ==> Quiet(env, pod, cs[i])
    ensures Lost(env, ExecAll(env, st, cs), pod)
    decreases |cs|
  {
    if cs == [] {
    } else {
      QuietExpands(env, st, cs[0], pod);
      LostForever(env, st, Expand(cs[0]), pod);
      RunExpand(env, st, cs[0]);
      NoReconciliationHelps(env, Exec(env, st, cs[0]), cs[1..], pod);
    }
  }
}
