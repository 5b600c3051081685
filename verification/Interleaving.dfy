/**
 * The watcher and the reconciler as two actors that interleave between awaits.
 *
 * Every lock section and every submission is one atomic action; everything an actor remembers between
 * two of them is in its program counter. Runs are sequences of actions, in any order the counters allow.
 */
module Interleaving {
  import opened Text
  import opened Pods
  import opened Discovery
  import opened Refinement

  /** Where a call of `handle_pod_event` stands; `at` is when its pod was inserted. */
  datatype Handler =
    | Resting
    | Evicting(pod: PodInfo, prior: PodInfo, at: nat)
    | Adding(pod: PodInfo, at: nat)
    | RollingBack(pod: PodInfo)

  datatype Watcher = OnEvent(handler: Handler) | OnDeletion(pod: PodInfo)

  datatype Reconciler =
    | Waiting
    | Listed(live: PodSet)
    | Dropping(stale: seq<PodInfo>, missing: seq<PodInfo>)
    | DropAccepted(stale: seq<PodInfo>, missing: seq<PodInfo>)
    | AddingMissing(missing: seq<PodInfo>, handler: Handler)

  /** What happened, in order: effective changes of the tracked set, and submissions. */
  datatype Mark =
    | Inserted(pod: PodInfo)
    | Removed(id: PodId)
    | SubmittedAdd(pod: PodInfo, at: nat, outcome: Outcome)
    | SubmittedRemove(url: string, outcome: Outcome)

  datatype System = System(shared: State, watcher: Watcher, reconciler: Reconciler, history: seq<Mark>)

  datatype Action =
    | WatchEvent(pod: PodInfo)
    | WatchDeletion(pod: PodInfo)
    | WatcherStep
    | List(live: PodSet)
    | Diff(stale: seq<PodInfo>, missing: seq<PodInfo>)
    | ReconcilerStep
    | ReconcilerRestart

  const IDLE := OnEvent(Resting)
  const INITIAL := System(START, IDLE, Waiting, [])

  // ---------------------------------------------------------------- atomic sections

  /** The lock section of `handle_pod_event`. */
  ghost function EnterEvent(s: System, pod: PodInfo): (System, Handler) {
    if !pod.IsHealthy() || pod.Id() in s.shared.tracked then (s, Resting)
    else
      var prior := Evicted(s.shared.tracked, pod);
      var swapped := s.(shared := s.shared.(tracked := Replace(s.shared.tracked, pod)));
      if prior.Some? then
        (swapped.(history := s.history + [Removed(prior.value), Inserted(pod)]),
         Evicting(pod, s.shared.tracked[prior.value], |s.history| + 1))
      else
        (swapped.(history := s.history + [Inserted(pod)]), Adding(pod, |s.history|))
  }

  function SubmitRemoval(env: Env, s: System, url: string): System {
    s.(shared := Submit(env, s.shared, RemoveWorker(url)),
       history := s.history + [SubmittedRemove(url, env.answer(|s.shared.log|))])
  }

  function SubmitAddition(env: Env, s: System, pod: PodInfo, at: nat): System {
    s.(shared := Submit(env, s.shared, AddWorker(SpecOf(env, pod))),
       history := s.history + [SubmittedAdd(pod, at, env.answer(|s.shared.log|))])
  }

  function RemoveTracked(s: System, id: PodId): System {
    if id !in s.shared.tracked then s
    else s.(shared := Untrack(s.shared, id), history := s.history + [Removed(id)])
  }

  function HandlerStep(env: Env, s: System, h: Handler): (System, Handler) {
    match h
    case Resting => (s, Resting)
    case Evicting(pod, prior, at) => (SubmitRemoval(env, s, prior.WorkerUrl(env.port)), Adding(pod, at))
    case Adding(pod, at) =>
      var next := SubmitAddition(env, s, pod, at);
      (next, if Answered(next.shared) == Rejected then RollingBack(pod) else Resting)
    case RollingBack(pod) => (RemoveTracked(s, pod.Id()), Resting)
  }

  ghost function ReconcilerMove(env: Env, s: System): System {
    match s.reconciler
    case Waiting => s
    case Listed(_) => s
    case Dropping(stale, missing) =>
      if stale == [] then s.(reconciler := AddingMissing(missing, Resting))
      else
        var next := SubmitRemoval(env, s, stale[0].WorkerUrl(env.port));
        var accepted := Answered(next.shared) == Accepted;
        next.(reconciler := if accepted then DropAccepted(stale, missing) else Dropping(stale[1..], missing))
    case DropAccepted(stale, missing) =>
      if stale == [] then s else RemoveTracked(s, stale[0].Id()).(reconciler := Dropping(stale[1..], missing))
    case AddingMissing(missing, handler) =>
      if handler != Resting then
        var (next, h) := HandlerStep(env, s, handler);
        next.(reconciler := AddingMissing(missing, h))
      else if missing == [] then s.(reconciler := Waiting)
      else
        var (next, h) := EnterEvent(s, missing[0]);
        next.(reconciler := AddingMissing(missing[1..], h))
  }

  ghost predicate Enabled(s: System, a: Action) {
    match a
    case WatchEvent(_) => s.watcher == IDLE
    case WatchDeletion(_) => s.watcher == IDLE
    case List(_) => s.reconciler == Waiting
    case Diff(stale, missing) =>
      && s.reconciler.Listed?
      && Enumerates(stale, Stale(s.shared.tracked, s.reconciler.live))
      && Enumerates(missing, Missing(s.shared.tracked, s.reconciler.live))
    case _ => true
  }

  ghost function Act(env: Env, s: System, a: Action): System {
    match a
    case WatchEvent(pod) =>
      var (next, h) := EnterEvent(s, pod);
      next.(watcher := OnEvent(h))
    case WatchDeletion(pod) =>
      if pod.Id() in s.shared.tracked then RemoveTracked(s, pod.Id()).(watcher := OnDeletion(pod)) else s
    case WatcherStep =>
      if s.watcher.OnDeletion? then SubmitRemoval(env, s, s.watcher.pod.WorkerUrl(env.port)).(watcher := IDLE)
      else
        var (next, h) := HandlerStep(env, s, s.watcher.handler);
        next.(watcher := OnEvent(h))
    case List(live) => s.(reconciler := Listed(live))
    case Diff(stale, missing) => s.(reconciler := Dropping(stale, missing))
    case ReconcilerStep => ReconcilerMove(env, s)
    case ReconcilerRestart => s.(reconciler := Waiting)
  }

  ghost predicate Possible(env: Env, s: System, acts: seq<Action>)
    decreases |acts|
  {
    acts != [] ==> Enabled(s, acts[0]) && Possible(env, Act(env, s, acts[0]), acts[1..])
  }

  ghost function RunActions(env: Env, s: System, acts: seq<Action>): System
    decreases |acts|
  {
    if acts == [] then s else RunActions(env, Act(env, s, acts[0]), acts[1..])
  }

  // ---------------------------------------------------------------- the invariant

  function Insertions(history: seq<Mark>, id: PodId): nat {
    if history == [] then 0
    else
      var m := history[|history| - 1];
      Insertions(history[..|history| - 1], id) + if m.Inserted? && m.pod.Id() == id then 1 else 0
  }

  function Removals(history: seq<Mark>, id: PodId): nat {
    if history == [] then 0
    else Removals(history[..|history| - 1], id) + if history[|history| - 1] == Removed(id) then 1 else 0
  }

  ghost predicate Balanced(tracked: PodSet, history: seq<Mark>) {
    forall id :: Insertions(history, id) == Removals(history, id) + if id in tracked then 1 else 0
  }

  ghost predicate RemovedBetween(history: seq<Mark>, i: nat, j: nat, id: PodId) {
    exists r :: i < r < j && r < |history| && history[r] == Removed(id)
  }

  ghost predicate InsertedAt(history: seq<Mark>, i: nat, id: PodId) {
    i < |history| && history[i].Inserted? && history[i].pod.Id() == id
  }

  /** Every insertion of an identity not tracked now has been undone since. */
  ghost predicate EpisodesClosed(tracked: PodSet, history: seq<Mark>) {
    forall i: nat, id :: InsertedAt(history, i, id) && id !in tracked ==> RemovedBetween(history, i, |history|, id)
  }

  /** Each tracked episode of an identity ends before the next one begins. */
  ghost predicate EpisodesApart(history: seq<Mark>) {
    forall i: nat, j: nat, id :: i < j && InsertedAt(history, i, id) && InsertedAt(history, j, id) ==>
        RemovedBetween(history, i, j, id)
  }

  /** Every submitted addition stems from an earlier insertion of its pod, no two from the same one. */
  ghost predicate AdditionsMatched(history: seq<Mark>) {
    && (forall i :: 0 <= i < |history| && history[i].SubmittedAdd? ==>
          history[i].at < i && history[history[i].at] == Inserted(history[i].pod))
    && (forall i, j :: 0 <= i < j < |history| && history[i].SubmittedAdd? && history[j].SubmittedAdd? ==>
        history[i].at != history[j].at)
  }

  /** A handler that has yet to submit its addition still owns its insertion. */
  ghost predicate Owns(history: seq<Mark>, h: Handler) {
    h.Evicting? || h.Adding? ==>
      && h.at < |history| && history[h.at] == Inserted(h.pod)
      && forall i :: 0 <= i < |history| && history[i].SubmittedAdd? ==> history[i].at != h.at
  }

  function HandlerOfWatcher(w: Watcher): Handler {
    if w.OnEvent? then w.handler else Resting
  }

  function HandlerOfReconciler(r: Reconciler): Handler {
    if r.AddingMissing? then r.handler else Resting
  }

  predicate SeparateOwners(a: Handler, b: Handler) {
    (a.Evicting? || a.Adding?) && (b.Evicting? || b.Adding?) ==> a.at != b.at
  }

  function Recorded(env: Env, m: Mark): seq<Submission> {
    match m
    case SubmittedAdd(pod, _, outcome) => [Submission(AddWorker(SpecOf(env, pod)), outcome)]
    case SubmittedRemove(url, outcome) => [Submission(RemoveWorker(url), outcome)]
    case _ => []
  }

  function SubmissionsOf(env: Env, history: seq<Mark>): seq<Submission> {
    if history == [] then []
    else SubmissionsOf(env, history[..|history| - 1]) + Recorded(env, history[|history| - 1])
  }

  ghost predicate Sound(tracked: PodSet, history: seq<Mark>) {
    && UniqueNames(tracked)
    && Balanced(tracked, history) && EpisodesClosed(tracked, history) && EpisodesApart(history)
    && AdditionsMatched(history)
  }

  /** `h` and `other` are the handlers of the two actors, each holding at most one insertion of its own. */
  ghost predicate Good(env: Env, shared: State, history: seq<Mark>, h: Handler, other: Handler) {
    && Sound(shared.tracked, history) && shared.log == SubmissionsOf(env, history)
    && Owns(history, h) && Owns(history, other) && SeparateOwners(h, other)
  }

  ghost predicate Invariant(env: Env, s: System) {
    Good(env, s.shared, s.history, HandlerOfWatcher(s.watcher), HandlerOfReconciler(s.reconciler))
  }

  // ---------------------------------------------------------------- the four ways history grows

  lemma CountsGrow(history: seq<Mark>, m: Mark, id: PodId)
    ensures Insertions(history + [m], id) == Insertions(history, id) + if m.Inserted? && m.pod.Id() == id then 1 else 0
    ensures Removals(history + [m], id) == Removals(history, id) + if m == Removed(id) then 1 else 0
  {
    assert (history + [m])[..|history|] == history;
  }

  lemma SubmissionsGrow(env: Env, history: seq<Mark>, m: Mark)
    ensures SubmissionsOf(env, history + [m]) == SubmissionsOf(env, history) + Recorded(env, m)
  {
    assert (history + [m])[..|history|] == history;
  }

  lemma BalancedAfter(tracked: PodSet, history: seq<Mark>, tracked': PodSet, m: Mark)
    requires Balanced(tracked, history)
    requires match m
             case Inserted(pod) => pod.Id() !in tracked && tracked'.Keys == tracked.Keys + {pod.Id()}
             case Removed(id) => id in tracked && tracked'.Keys == tracked.Keys - {id}
             case _ => tracked'.Keys == tracked.Keys
    ensures Balanced(tracked', history + [m])
  {
    forall id
      ensures Insertions(history + [m], id) == Removals(history + [m], id) + if id in tracked' then 1 else 0
    {
      CountsGrow(history, m, id);
    }
  }

  /** A removal between two places stays there as history grows. */
  lemma RemovedBetweenKept(history: seq<Mark>, more: seq<Mark>, i: nat, j: nat, j': nat, id: PodId)
    requires RemovedBetween(history, i, j, id) && j <= j'
    ensures RemovedBetween(history + more, i, j', id)
  {
    var r :| i < r < j && r < |history| && history[r] == Removed(id);
    assert (history + more)[r] == Removed(id);
  }

  lemma EpisodesAfter(tracked: PodSet, history: seq<Mark>, tracked': PodSet, m: Mark)
    requires EpisodesClosed(tracked, history) && EpisodesApart(history)
    requires match m
             case Inserted(pod) => pod.Id() !in tracked && tracked'.Keys == tracked.Keys + {pod.Id()}
             case Removed(id) => id in tracked && tracked'.Keys == tracked.Keys - {id}
             case _ => tracked'.Keys == tracked.Keys
    ensures EpisodesClosed(tracked', history + [m]) && EpisodesApart(history + [m])
  {
    var h := history + [m];
    forall i: nat, id | InsertedAt(h, i, id) && id !in tracked'
      ensures RemovedBetween(h, i, |h|, id)
    {
      if m == Removed(id) {
        assert h[|history|] == Removed(id);
      } else {
        assert InsertedAt(history, i, id);
        RemovedBetweenKept(history, [m], i, |history|, |h|, id);
      }
    }
    forall i: nat, j: nat, id | i < j && InsertedAt(h, i, id) && InsertedAt(h, j, id)
      ensures RemovedBetween(h, i, j, id)
    {
      assert InsertedAt(history, i, id);
      if j < |history| {
        assert InsertedAt(history, j, id);
        RemovedBetweenKept(history, [m], i, j, j, id);
      } else {
        RemovedBetweenKept(history, [m], i, |history|, j, id);
      }
    }
  }

  lemma MatchedAfter(history: seq<Mark>, m: Mark)
    requires AdditionsMatched(history)
    requires m.SubmittedAdd? ==> Owns(history, Adding(m.pod, m.at))
    ensures AdditionsMatched(history + [m])
  {
    var h := history + [m];
    assert forall i :: 0 <= i < |history| ==> h[i] == history[i];
  }

  lemma OwnsAfter(history: seq<Mark>, m: Mark, h: Handler)
    requires Owns(history, h)
    requires m.SubmittedAdd? ==> SeparateOwners(Adding(m.pod, m.at), h)
    ensures Owns(history + [m], h)
  {
  }

  lemma SoundAfter(tracked: PodSet, history: seq<Mark>, tracked': PodSet, m: Mark)
    requires Sound(tracked, history) && UniqueNames(tracked')
    requires match m
             case Inserted(pod) => pod.Id() !in tracked && tracked'.Keys == tracked.Keys + {pod.Id()}
             case Removed(id) => id in tracked && tracked'.Keys == tracked.Keys - {id}
             case _ => tracked'.Keys == tracked.Keys
    requires m.SubmittedAdd? ==> Owns(history, Adding(m.pod, m.at))
    ensures Sound(tracked', history + [m])
  {
    BalancedAfter(tracked, history, tracked', m);
    EpisodesAfter(tracked, history, tracked', m);
    MatchedAfter(history, m);
  }

  lemma UntrackedIs(s: System, id: PodId)
    ensures RemoveTracked(s, id).shared == Untrack(s.shared, id)
  {
    if id !in s.shared.tracked {
      assert s.shared.tracked - {id} == s.shared.tracked;
    }
  }

  // ---------------------------------------------------------------- each section keeps the invariant

  lemma InsertGood(env: Env, shared: State, history: seq<Mark>, pod: PodInfo, other: Handler)
    requires Good(env, shared, history, Resting, other)
    requires pod.Id() !in shared.tracked && UniqueNames(shared.tracked[pod.Id() := pod])
    ensures Good(env, shared.(tracked := shared.tracked[pod.Id() := pod]), history + [Inserted(pod)],
                 Adding(pod, |history|), other)
  {
    SubmissionsGrow(env, history, Inserted(pod));
    SoundAfter(shared.tracked, history, shared.tracked[pod.Id() := pod], Inserted(pod));
    OwnsAfter(history, Inserted(pod), other);
  }

  lemma UntrackGood(env: Env, shared: State, history: seq<Mark>, id: PodId, h: Handler, other: Handler)
    requires Good(env, shared, history, h, other) && id in shared.tracked
    ensures Good(env, Untrack(shared, id), history + [Removed(id)], h, other)
  {
    SubmissionsGrow(env, history, Removed(id));
    SoundAfter(shared.tracked, history, shared.tracked - {id}, Removed(id));
    OwnsAfter(history, Removed(id), h);
    OwnsAfter(history, Removed(id), other);
  }

  lemma SwapGood(env: Env, shared: State, history: seq<Mark>, pod: PodInfo, prior: PodId, other: Handler)
    requires Good(env, shared, history, Resting, other) && prior in shared.tracked
    requires pod.Id() !in shared.tracked && UniqueNames((shared.tracked - {prior})[pod.Id() := pod])
    ensures Good(env, shared.(tracked := (shared.tracked - {prior})[pod.Id() := pod]),
                 history + [Removed(prior), Inserted(pod)], Adding(pod, |history| + 1), other)
  {
    UntrackGood(env, shared, history, prior, Resting, other);
    InsertGood(env, Untrack(shared, prior), history + [Removed(prior)], pod, other);
    Regroup(history, [Removed(prior)], [Inserted(pod)]);
    assert [Removed(prior)] + [Inserted(pod)] == [Removed(prior), Inserted(pod)];
  }

  lemma EnterEventGood(env: Env, s: System, pod: PodInfo, other: Handler)
    requires Good(env, s.shared, s.history, Resting, other)
    ensures var (next, h) := EnterEvent(s, pod); Good(env, next.shared, next.history, h, other)
  {
    if pod.IsHealthy() && pod.Id() !in s.shared.tracked {
      var prior := Evicted(s.shared.tracked, pod);
      if prior.Some? {
        SwapGood(env, s.shared, s.history, pod, prior.value, other);
      } else {
        InsertGood(env, s.shared, s.history, pod, other);
      }
    }
  }

  lemma SubmitRemovalGood(env: Env, s: System, url: string, h: Handler, other: Handler)
    requires Good(env, s.shared, s.history, h, other)
    ensures var next := SubmitRemoval(env, s, url); Good(env, next.shared, next.history, h, other)
  {
    var m := SubmittedRemove(url, env.answer(|s.shared.log|));
    SubmissionsGrow(env, s.history, m);
    SoundAfter(s.shared.tracked, s.history, s.shared.tracked, m);
    OwnsAfter(s.history, m, h);
    OwnsAfter(s.history, m, other);
  }

  lemma SubmitAdditionGood(env: Env, s: System, pod: PodInfo, at: nat, other: Handler)
    requires Good(env, s.shared, s.history, Adding(pod, at), other)
    ensures var next := SubmitAddition(env, s, pod, at); Good(env, next.shared, next.history, Resting, other)
  {
    var m := SubmittedAdd(pod, at, env.answer(|s.shared.log|));
    SubmissionsGrow(env, s.history, m);
    SoundAfter(s.shared.tracked, s.history, s.shared.tracked, m);
    OwnsAfter(s.history, m, other);
  }

  lemma RemoveTrackedGood(env: Env, s: System, id: PodId, h: Handler, other: Handler)
    requires Good(env, s.shared, s.history, h, other)
    ensures var next := RemoveTracked(s, id); Good(env, next.shared, next.history, h, other)
  {
    if id in s.shared.tracked {
      UntrackGood(env, s.shared, s.history, id, h, other);
    }
  }

  lemma HandlerStepGood(env: Env, s: System, h: Handler, other: Handler)
    requires Good(env, s.shared, s.history, h, other)
    ensures var (next, h') := HandlerStep(env, s, h); Good(env, next.shared, next.history, h', other)
  {
    match h
    case Resting =>
    case Evicting(pod, prior, at) => SubmitRemovalGood(env, s, prior.WorkerUrl(env.port), h, other);
    case Adding(pod, at) => SubmitAdditionGood(env, s, pod, at, other);
    case RollingBack(pod) => RemoveTrackedGood(env, s, pod.Id(), h, other);
  }

  lemma WatcherEnters(env: Env, s: System, pod: PodInfo)
    requires Invariant(env, s) && s.watcher == IDLE
    ensures Invariant(env, Act(env, s, WatchEvent(pod))) && Invariant(env, Act(env, s, WatchDeletion(pod)))
  {
    EnterEventGood(env, s, pod, HandlerOfReconciler(s.reconciler));
    RemoveTrackedGood(env, s, pod.Id(), Resting, HandlerOfReconciler(s.reconciler));
  }

  lemma WatcherSteps(env: Env, s: System)
    requires Invariant(env, s)
    ensures Invariant(env, Act(env, s, WatcherStep))
  {
    var other := HandlerOfReconciler(s.reconciler);
    if s.watcher.OnDeletion? {
      SubmitRemovalGood(env, s, s.watcher.pod.WorkerUrl(env.port), Resting, other);
    } else {
      HandlerStepGood(env, s, s.watcher.handler, other);
    }
  }

  lemma ReconcilerDrops(env: Env, s: System)
    requires Invariant(env, s) && (s.reconciler.Dropping? || s.reconciler.DropAccepted?) && s.reconciler.stale != []
    ensures Invariant(env, ReconcilerMove(env, s))
  {
    var other, pod := HandlerOfWatcher(s.watcher), s.reconciler.stale[0];
    if s.reconciler.Dropping? {
      SubmitRemovalGood(env, s, pod.WorkerUrl(env.port), Resting, other);
    } else {
      RemoveTrackedGood(env, s, pod.Id(), Resting, other);
    }
  }

  lemma ReconcilerAdds(env: Env, s: System)
    requires Invariant(env, s) && s.reconciler.AddingMissing?
    ensures Invariant(env, ReconcilerMove(env, s))
  {
    var other, handler, missing := HandlerOfWatcher(s.watcher), s.reconciler.handler, s.reconciler.missing;
    if handler != Resting {
      HandlerStepGood(env, s, handler, other);
    } else if missing != [] {
      EnterEventGood(env, s, missing[0], other);
    }
  }

  lemma ReconcilerActs(env: Env, s: System)
    requires Invariant(env, s)
    ensures Invariant(env, ReconcilerMove(env, s))
  {
    if s.reconciler.AddingMissing? {
      ReconcilerAdds(env, s);
    } else if (s.reconciler.Dropping? || s.reconciler.DropAccepted?) && s.reconciler.stale != [] {
      ReconcilerDrops(env, s);
    }
  }

  lemma {:induction false} InvariantThroughout(env: Env, s: System, acts: seq<Action>)
    requires Invariant(env, s) && Possible(env, s, acts)
    ensures Invariant(env, RunActions(env, s, acts))
    decreases |acts|
  {
    if acts == [] {
    } else {
      var next := Act(env, s, acts[0]);
      assert Invariant(env, next) by {
        match acts[0]
        case ReconcilerStep => ReconcilerActs(env, s);
        case List(_) =>
        case Diff(_, _) =>
        case ReconcilerRestart =>
        case WatcherStep => WatcherSteps(env, s);
        case WatchEvent(pod) => WatcherEnters(env, s, pod);
        case WatchDeletion(pod) => WatcherEnters(env, s, pod);
      }
      InvariantThroughout(env, next, acts[1..]);
    }
  }

  // ---------------------------------------------------------------- theorems over every interleaving

  /** However the two actors interleave, no two tracked pods share a name. */
  lemma NamesStayUnique(env: Env, acts: seq<Action>)
    requires Possible(env, INITIAL, acts)
    ensures UniqueNames(RunActions(env, INITIAL, acts).shared.tracked)
  {
    InvariantThroughout(env, INITIAL, acts);
  }

  /** Insertions minus effective removals of an identity: one if it is tracked, else none. */
  lemma InsertionsBalance(env: Env, acts: seq<Action>, id: PodId)
    requires Possible(env, INITIAL, acts)
    ensures var end := RunActions(env, INITIAL, acts);
            Insertions(end.history, id) - Removals(end.history, id) == if id in end.shared.tracked then 1 else 0
  {
    InvariantThroughout(env, INITIAL, acts);
  }

  /** The jobs the queue was given are those the history records, in the same order. */
  lemma LogIsHistory(env: Env, acts: seq<Action>)
    requires Possible(env, INITIAL, acts)
    ensures var end := RunActions(env, INITIAL, acts); end.shared.log == SubmissionsOf(env, end.history)
  {
    InvariantThroughout(env, INITIAL, acts);
  }

  /** Every submitted addition has an earlier insertion of its pod, and no other addition has the same one. */
  lemma AdditionHasInsertion(env: Env, acts: seq<Action>, i: nat)
    requires Possible(env, INITIAL, acts)
    requires i < |RunActions(env, INITIAL, acts).history| && RunActions(env, INITIAL, acts).history[i].SubmittedAdd?
    ensures var history := RunActions(env, INITIAL, acts).history;
            && history[i].at < i && history[history[i].at] == Inserted(history[i].pod)
            && forall j :: 0 <= j < |history| && j != i && history[j].SubmittedAdd? ==> history[j].at != history[i].at
  {
    InvariantThroughout(env, INITIAL, acts);
  }

  /**
   * A pod is never added twice within one tracked episode: each submitted addition has an earlier
   * insertion of its own, and between the insertions behind two additions of one identity the identity
   * was removed.
   */
  lemma OneAdditionPerEpisode(env: Env, acts: seq<Action>, i: nat, j: nat)
    requires Possible(env, INITIAL, acts)
    requires var history := RunActions(env, INITIAL, acts).history;
             && i < j < |history| && history[i].SubmittedAdd? && history[j].SubmittedAdd?
             && history[i].pod.Id() == history[j].pod.Id()
    ensures var history := RunActions(env, INITIAL, acts).history;
            var a, b := history[i].at, history[j].at;
            && a < i && b < j && history[a] == Inserted(history[i].pod) && history[b] == Inserted(history[j].pod)
            && a != b && RemovedBetween(history, if a < b then a else b, if a < b then b else a, history[i].pod.Id())
  {
    InvariantThroughout(env, INITIAL, acts);
    var history := RunActions(env, INITIAL, acts).history;
    var a, b, id := history[i].at, history[j].at, history[i].pod.Id();
    assert InsertedAt(history, a, id) && InsertedAt(history, b, id);
  }
}
