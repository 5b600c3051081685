/**
 * Jobs against tracking, read off the history of a run: which changes of the tracked set and which submissions took
 * place, in which order. The two agree exactly if the last accepted job about every address has the effect of the last
 * change there, whatever the actors did in between.
 */
module Ledger {
  import opened Text
  import opened Pods
  import opened Discovery
  import opened Refinement
  import opened Interleaving
  import opened Overlap

  // ---------------------------------------------------------------- the tracked set from the history

  function Changed(tracked: PodSet, m: Mark): PodSet {
    if m.Inserted? then tracked[m.pod.Id() := m.pod] else if m.Removed? then tracked - {m.id} else tracked
  }

  function TrackedOf(history: seq<Mark>): PodSet {
    if history == [] then map[] else Changed(TrackedOf(history[..|history| - 1]), history[|history| - 1])
  }

  lemma TrackedSnoc(history: seq<Mark>, m: Mark)
    ensures TrackedOf(history + [m]) == Changed(TrackedOf(history), m)
  {
    assert (history + [m])[..|history|] == history;
  }

  /** Pods are inserted at the address of their identity, removed while tracked, and never share an address. */
  ghost predicate Regular(history: seq<Mark>, ipOf: PodId -> string) {
    history != [] ==>
      var before, m := history[..|history| - 1], history[|history| - 1];
      && Regular(before, ipOf) && DistinctIps(TrackedOf(history))
      && (m.Inserted? ==> AtHome(m.pod, ipOf)) && (m.Removed? ==> m.id in TrackedOf(before))
  }

  lemma RegularSnoc(history: seq<Mark>, m: Mark, ipOf: PodId -> string)
    requires Regular(history, ipOf) && DistinctIps(TrackedOf(history + [m]))
    requires (m.Inserted? ==> AtHome(m.pod, ipOf)) && (m.Removed? ==> m.id in TrackedOf(history))
    ensures Regular(history + [m], ipOf)
  {
    assert (history + [m])[..|history|] == history;
  }

  /** The history accounts for the tracked set. */
  ghost predicate Tallies(s: System, ipOf: PodId -> string) {
    s.shared.tracked == TrackedOf(s.history) && Regular(s.history, ipOf)
  }

  lemma SubmissionTallies(s: System, next: System, m: Mark, ipOf: PodId -> string)
    requires Tallies(s, ipOf) && DistinctIps(s.shared.tracked) && (m.SubmittedAdd? || m.SubmittedRemove?)
    requires next.shared.tracked == s.shared.tracked && next.history == s.history + [m]
    ensures Tallies(next, ipOf)
  {
    TrackedSnoc(s.history, m);
    RegularSnoc(s.history, m, ipOf);
  }

  lemma RemovalTallies(s: System, id: PodId, ipOf: PodId -> string)
    requires Tallies(s, ipOf) && DistinctIps(s.shared.tracked)
    ensures Tallies(RemoveTracked(s, id), ipOf)
  {
    if id in s.shared.tracked {
      TrackedSnoc(s.history, Removed(id));
      RegularSnoc(s.history, Removed(id), ipOf);
    }
  }

  lemma EnterTallies(s: System, pod: PodInfo, ipOf: PodId -> string)
    requires Tallies(s, ipOf) && DistinctIps(s.shared.tracked) && AtHome(pod, ipOf)
    requires DistinctIps(EnterEvent(s, pod).0.shared.tracked)
    ensures Tallies(EnterEvent(s, pod).0, ipOf)
  {
    var next := EnterEvent(s, pod).0;
    if pod.IsHealthy() && pod.Id() !in s.shared.tracked {
      var prior := Evicted(s.shared.tracked, pod);
      if prior.Some? {
        var mid := RemoveTracked(s, prior.value);
        RemovalTallies(s, prior.value, ipOf);
        TrackedSnoc(mid.history, Inserted(pod));
        assert mid.history + [Inserted(pod)] == next.history;
        RegularSnoc(mid.history, Inserted(pod), ipOf);
      } else {
        TrackedSnoc(s.history, Inserted(pod));
        RegularSnoc(s.history, Inserted(pod), ipOf);
      }
    }
  }

  lemma HandlerTallies(env: Env, s: System, h: Handler, ipOf: PodId -> string)
    requires Tallies(s, ipOf) && DistinctIps(s.shared.tracked)
    ensures Tallies(HandlerStep(env, s, h).0, ipOf)
  {
    var next := HandlerStep(env, s, h).0;
    match h
    case Resting =>
    case Evicting(_, _, _) => SubmissionTallies(s, next, next.history[|s.history|], ipOf);
    case Adding(_, _) => SubmissionTallies(s, next, next.history[|s.history|], ipOf);
    case RollingBack(pod) => RemovalTallies(s, pod.Id(), ipOf);
  }

  lemma ReconcilerTallies(env: Env, s: System, ipOf: PodId -> string)
    requires Tallies(s, ipOf) && DistinctIps(s.shared.tracked) && ReconcilerAtHome(s.reconciler, ipOf)
    requires DistinctIps(ReconcilerMove(env, s).shared.tracked)
    ensures Tallies(ReconcilerMove(env, s), ipOf)
  {
    var next := ReconcilerMove(env, s);
    match s.reconciler
    case Dropping(stale, _) =>
      if stale != [] {
        SubmissionTallies(s, next, next.history[|s.history|], ipOf);
      }
    case DropAccepted(stale, _) =>
      if stale != [] {
        RemovalTallies(s, stale[0].Id(), ipOf);
      }
    case AddingMissing(missing, h) =>
      if h != Resting {
        HandlerTallies(env, s, h, ipOf);
      } else if missing != [] {
        EnterTallies(s, missing[0], ipOf);
      }
    case _ =>
  }

  lemma ActTallies(env: Env, s: System, a: Action, ipOf: PodId -> string)
    requires Tallies(s, ipOf) && SystemAtHome(s, ipOf) && ActionAtHome(a, ipOf)
    requires DistinctIps(s.shared.tracked) && DistinctIps(Act(env, s, a).shared.tracked)
    ensures Tallies(Act(env, s, a), ipOf)
  {
    match a
    case WatchEvent(pod) => EnterTallies(s, pod, ipOf);
    case WatchDeletion(pod) => RemovalTallies(s, pod.Id(), ipOf);
    case WatcherStep =>
      if s.watcher.OnDeletion? {
        var next := Act(env, s, a);
        SubmissionTallies(s, next, next.history[|s.history|], ipOf);
      } else {
        HandlerTallies(env, s, s.watcher.handler, ipOf);
      }
    case ReconcilerStep => ReconcilerTallies(env, s, ipOf);
    case _ =>
  }

  lemma {:induction false} RunTallies(env: Env, s: System, acts: seq<Action>, ipOf: PodId -> string)
    requires Tallies(s, ipOf) && SystemAtHome(s, ipOf) && ActionsAtHome(acts, ipOf)
    requires Possible(env, s, acts) && DistinctAlong(env, s, acts)
    ensures Tallies(RunActions(env, s, acts), ipOf)
    decreases |acts|
  {
    if acts == [] {
    } else {
      ActTallies(env, s, acts[0], ipOf);
      StepAtHome(env, s, acts[0], ipOf);
      RunTallies(env, Act(env, s, acts[0]), acts[1..], ipOf);
    }
  }

  // ---------------------------------------------------------------- the last change at an address

  /** Who a mark leaves at an address, given who was left before. */
  function LeftBy(m: Mark, change: Option<PodInfo>, port: nat, ipOf: PodId -> string, url: string): Option<PodInfo> {
    if m.Inserted? && UrlAt(ipOf(m.pod.Id()), port) == url then Some(m.pod)
    else if m.Removed? && UrlAt(ipOf(m.id), port) == url then None
    else change
  }

  /** The pod that the last change at an address left there, if any. */
  function ChangeAt(history: seq<Mark>, port: nat, ipOf: PodId -> string, url: string): Option<PodInfo> {
    if history == [] then None
    else
      LeftBy(history[|history| - 1], ChangeAt(history[..|history| - 1], port, ipOf, url), port, ipOf, url)
  }

  /** Whoever is tracked at an address is who the last change left there. */
  ghost predicate LastLeft(env: Env, tracked: PodSet, change: Option<PodInfo>, url: string) {
    match change
    case Some(pod) => pod.WorkerUrl(env.port) == url && StillListed(tracked, pod)
    case None => Vacant(env, tracked, url)
  }

  lemma VacantStays(env: Env, before: PodSet, after: PodSet, url: string)
    requires Vacant(env, before, url)
    requires forall k :: k in after ==> (k in before && after[k] == before[k]) || after[k].WorkerUrl(env.port) != url
    ensures Vacant(env, after, url)
  {
    forall k
      ensures !Holds(env, after, k, url)
    {
      assert !Holds(env, before, k, url);
    }
  }

  lemma LeftAfter(env: Env, before: PodSet, m: Mark, change: Option<PodInfo>, ipOf: PodId -> string, url: string)
    requires LastLeft(env, before, change, url) && DistinctIps(before) && TrackedIps(before, ipOf)
    requires (m.Inserted? ==> AtHome(m.pod, ipOf)) && (m.Removed? ==> m.id in before)
    ensures LastLeft(env, Changed(before, m), LeftBy(m, change, env.port, ipOf, url), url)
    ensures TrackedIps(Changed(before, m), ipOf)
  {
    if m.Removed? && UrlAt(ipOf(m.id), env.port) == url {
      OnlyHolder(env, before, before[m.id]);
    } else if change.None? && LeftBy(m, change, env.port, ipOf, url).None? {
      VacantStays(env, before, Changed(before, m), url);
    }
  }

  lemma {:induction false} LastChangeLeft(env: Env, history: seq<Mark>, ipOf: PodId -> string, url: string)
    requires Regular(history, ipOf)
    ensures LastLeft(env, TrackedOf(history), ChangeAt(history, env.port, ipOf, url), url)
    ensures TrackedIps(TrackedOf(history), ipOf)
  {
    if history == [] {
    } else {
      var before := history[..|history| - 1];
      LastChangeLeft(env, before, ipOf, url);
      LeftAfter(env, TrackedOf(before), history[|history| - 1], ChangeAt(before, env.port, ipOf, url), ipOf, url);
    }
  }

  // ---------------------------------------------------------------- jobs against changes

  /** A job has the effect of a change: the addition of the pod that was left, or anything else if none was. */
  predicate Matches(env: Env, job: Option<Job>, change: Option<PodInfo>) {
    if job.Some? && job.value.AddWorker? then change.Some? && SpecOf(env, change.value) == job.value.spec
    else change.None?
  }

  /** At an address, the last accepted job has the effect of the last change. */
  ghost predicate JobsFollow(env: Env, history: seq<Mark>, ipOf: PodId -> string, url: string) {
    Matches(env, LatestJob(SubmissionsOf(env, history), url), ChangeAt(history, env.port, ipOf, url))
  }

  lemma AgreesIffFollows(env: Env, st: State, history: seq<Mark>, ipOf: PodId -> string, url: string)
    requires st.tracked == TrackedOf(history) && st.log == SubmissionsOf(env, history) && Regular(history, ipOf)
    ensures AgreesAt(env, st, url) <==> JobsFollow(env, history, ipOf, url)
  {
    var change := ChangeAt(history, env.port, ipOf, url);
    assert DistinctIps(TrackedOf(history));
    LastChangeLeft(env, history, ipOf, url);
    AgreesIffAsked(env, st, url);
    if change.Some? {
      OnlyHolder(env, st.tracked, change.value);
    }
  }

  /**
   * Over every interleaving of the two actors, with any answers, in which no two tracked pods share an address: the
   * jobs replay to exactly the workers of the tracked pods if and only if, at every address, the last accepted job
   * in the history has the effect of the last change in the history.
   */
  lemma ScheduleRefinesIff(env: Env, acts: seq<Action>, ipOf: PodId -> string)
    requires Possible(env, INITIAL, acts) && ActionsAtHome(acts, ipOf) && DistinctAlong(env, INITIAL, acts)
    ensures var end := RunActions(env, INITIAL, acts);
            Refines(env, end.shared) <==> forall url :: JobsFollow(env, end.history, ipOf, url)
  {
    var end := RunActions(env, INITIAL, acts);
    StartAgrees(env, ipOf);
    RunTallies(env, INITIAL, acts, ipOf);
    LogIsHistory(env, acts);
    forall url
      ensures AgreesAt(env, end.shared, url) <==> JobsFollow(env, end.history, ipOf, url)
    {
      AgreesIffFollows(env, end.shared, end.history, ipOf, url);
    }
    RefinesIffAgrees(env, end.shared);
  }
}
