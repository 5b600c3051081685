/**
 * Particular schedules of the two actors: handlers that run undisturbed are the handler functions, so every
 * run of whole handlers is a schedule; and schedules in which the actors overlap with and without harm.
 */
module Schedules {
  import opened Pods
  import opened Discovery
  import opened Refinement
  import opened Losses
  import opened Interleaving
  import opened Overlap

  // ---------------------------------------------------------------- the handlers as undisturbed runs

  /** The watcher left alone until it rests: at most an eviction, an addition and a rollback. */
  ghost function Finish(env: Env, s: System): System {
    Act(env, Act(env, Act(env, s, WatcherStep), WatcherStep), WatcherStep)
  }

  lemma FinishRollback(env: Env, s: System, pod: PodInfo)
    requires s.watcher == OnEvent(RollingBack(pod)) && pod.Id() in s.shared.tracked
    ensures var end := Act(env, s, WatcherStep);
            end.watcher == IDLE && end.shared == Untrack(s.shared, pod.Id())
  {
  }

  lemma FinishAdding(env: Env, s: System, pod: PodInfo, at: nat)
    requires s.watcher == OnEvent(Adding(pod, at)) && pod.Id() in s.shared.tracked
    ensures var end := Act(env, Act(env, s, WatcherStep), WatcherStep);
            var added := Submit(env, s.shared, AddWorker(SpecOf(env, pod)));
            && end.watcher == IDLE
            && end.shared == if Answered(added) == Rejected then Untrack(added, pod.Id()) else added
  {
    var mid := Act(env, s, WatcherStep);
    if mid.watcher != IDLE {
      FinishRollback(env, mid, pod);
    }
  }

  /** A handler that nobody interrupts does what the handler function says. */
  lemma UndisturbedEvent(env: Env, s: System, pod: PodInfo)
    requires s.watcher == IDLE
    ensures var end := Finish(env, Act(env, s, WatchEvent(pod)));
            end.watcher == IDLE && end.reconciler == s.reconciler && end.shared == HandleEvent(env, s.shared, pod)
  {
    var first := Act(env, s, WatchEvent(pod));
    match first.watcher.handler
    case Resting =>
    case Evicting(p, prior, at) => FinishAdding(env, Act(env, first, WatcherStep), p, at);
    case Adding(p, at) => FinishAdding(env, first, p, at);
  }

  lemma UndisturbedDeletion(env: Env, s: System, pod: PodInfo)
    requires s.watcher == IDLE
    ensures var end := Act(env, Act(env, s, WatchDeletion(pod)), WatcherStep);
            end.watcher == IDLE && end.reconciler == s.reconciler && end.shared == HandleDeletion(env, s.shared, pod)
  {
  }

  // ---------------------------------------------------------------- an undisturbed reconciliation

  ghost function Moves(env: Env, s: System, n: nat): System
    decreases n
  {
    if n == 0 then s else Moves(env, ReconcilerMove(env, s), n - 1)
  }

  lemma {:induction false} MovesAppend(env: Env, s: System, m: nat, n: nat)
    ensures Moves(env, s, m + n) == Moves(env, Moves(env, s, m), n)
    decreases m
  {
    if m == 0 {
    } else {
      MovesAppend(env, ReconcilerMove(env, s), m - 1, n);
    }
  }

  lemma DropOne(env: Env, s: System, stale: seq<PodInfo>, missing: seq<PodInfo>) returns (n: nat)
    requires s.reconciler == Dropping(stale, missing) && stale != []
    ensures var end := Moves(env, s, n);
            && end.reconciler == Dropping(stale[1..], missing) && end.watcher == s.watcher
            && end.shared == DropStale(env, s.shared, stale[0])
  {
    var next := ReconcilerMove(env, s);
    if env.answer(|s.shared.log|) == Accepted {
      UntrackedIs(next, stale[0].Id());
      n := 2;
      MovesAppend(env, s, 1, 1);
    } else {
      n := 1;
    }
  }

  lemma {:induction false} DropsUndisturbed(env: Env, s: System, stale: seq<PodInfo>, missing: seq<PodInfo>)
    returns (n: nat)
    requires s.reconciler == Dropping(stale, missing)
    ensures var end := Moves(env, s, n);
            && end.reconciler == AddingMissing(missing, Resting) && end.watcher == s.watcher
            && end.shared == DropAll(env, s.shared, stale)
    decreases |stale|
  {
    if stale == [] {
      n := 1;
    } else {
      var first := DropOne(env, s, stale, missing);
      var rest := DropsUndisturbed(env, Moves(env, s, first), stale[1..], missing);
      MovesAppend(env, s, first, rest);
      n := first + rest;
    }
  }

  function AddFinished(env: Env, st: State, pod: PodInfo): State {
    var added := Submit(env, st, AddWorker(SpecOf(env, pod)));
    if Answered(added) == Rejected then Untrack(added, pod.Id()) else added
  }

  /** What a handler that stands at `h` does to the shared state when nobody interrupts it. */
  function Finished(env: Env, st: State, h: Handler): State {
    match h
    case Resting => st
    case Evicting(pod, prior, _) =>
      AddFinished(env, Submit(env, st, RemoveWorker(prior.WorkerUrl(env.port))), pod)
    case Adding(pod, _) => AddFinished(env, st, pod)
    case RollingBack(pod) => Untrack(st, pod.Id())
  }

  lemma EnteredFinishes(env: Env, s: System, pod: PodInfo)
    ensures var (next, h) := EnterEvent(s, pod); Finished(env, next.shared, h) == HandleEvent(env, s.shared, pod)
  {
  }

  lemma AddingFinishes(env: Env, s: System, missing: seq<PodInfo>, pod: PodInfo, at: nat) returns (n: nat)
    requires s.reconciler == AddingMissing(missing, Adding(pod, at))
    ensures var end := Moves(env, s, n);
            && end.reconciler == AddingMissing(missing, Resting) && end.watcher == s.watcher
            && end.shared == Finished(env, s.shared, Adding(pod, at))
  {
    var next := ReconcilerMove(env, s);
    if env.answer(|s.shared.log|) == Rejected {
      UntrackedIs(next, pod.Id());
      n := 2;
      MovesAppend(env, s, 1, 1);
    } else {
      n := 1;
    }
  }

  lemma HandlerFinishes(env: Env, s: System, missing: seq<PodInfo>, h: Handler) returns (n: nat)
    requires s.reconciler == AddingMissing(missing, h) && !h.RollingBack?
    ensures var end := Moves(env, s, n);
            && end.reconciler == AddingMissing(missing, Resting) && end.watcher == s.watcher
            && end.shared == Finished(env, s.shared, h)
  {
    match h
    case Resting =>
      n := 0;
    case Adding(pod, at) =>
      n := AddingFinishes(env, s, missing, pod, at);
    case Evicting(pod, prior, at) =>
      var rest := AddingFinishes(env, ReconcilerMove(env, s), missing, pod, at);
      n := 1 + rest;
  }

  lemma AddOne(env: Env, s: System, missing: seq<PodInfo>) returns (n: nat)
    requires s.reconciler == AddingMissing(missing, Resting) && missing != []
    ensures var end := Moves(env, s, n);
            && end.reconciler == AddingMissing(missing[1..], Resting) && end.watcher == s.watcher
            && end.shared == HandleEvent(env, s.shared, missing[0])
  {
    var next := ReconcilerMove(env, s);
    EnteredFinishes(env, s, missing[0]);
    var rest := HandlerFinishes(env, next, missing[1..], next.reconciler.handler);
    n := 1 + rest;
  }

  lemma {:induction false} AddsUndisturbed(env: Env, s: System, missing: seq<PodInfo>) returns (n: nat)
    requires s.reconciler == AddingMissing(missing, Resting)
    ensures var end := Moves(env, s, n);
            end.reconciler == Waiting && end.watcher == s.watcher && end.shared == AddAll(env, s.shared, missing)
    decreases |missing|
  {
    if missing == [] {
      n := 1;
    } else {
      var first := AddOne(env, s, missing);
      var rest := AddsUndisturbed(env, Moves(env, s, first), missing[1..]);
      MovesAppend(env, s, first, rest);
      n := first + rest;
    }
  }

  // ---------------------------------------------------------------- whole handlers as schedules

  lemma FirstAction(env: Env, s: System, a: Action, rest: seq<Action>)
    ensures RunActions(env, s, [a] + rest) == RunActions(env, Act(env, s, a), rest)
    ensures Possible(env, s, [a] + rest) <==> Enabled(s, a) && Possible(env, Act(env, s, a), rest)
  {
    assert ([a] + rest)[1..] == rest;
  }

  lemma {:induction false} ActionsAppend(env: Env, s: System, a: seq<Action>, b: seq<Action>)
    ensures RunActions(env, s, a + b) == RunActions(env, RunActions(env, s, a), b)
    ensures Possible(env, s, a + b) <==> Possible(env, s, a) && Possible(env, RunActions(env, s, a), b)
    decreases |a|
  {
    if a == [] {
      assert a + b == b;
    } else {
      assert (a + b)[1..] == a[1..] + b;
      ActionsAppend(env, Act(env, s, a[0]), a[1..], b);
    }
  }

  function Steps(n: nat): seq<Action> {
    if n == 0 then [] else [ReconcilerStep] + Steps(n - 1)
  }

  lemma {:induction false} StepsAreMoves(env: Env, s: System, n: nat)
    ensures RunActions(env, s, Steps(n)) == Moves(env, s, n) && Possible(env, s, Steps(n))
    decreases n
  {
    if n == 0 {
    } else {
      FirstAction(env, s, ReconcilerStep, Steps(n - 1));
      StepsAreMoves(env, ReconcilerMove(env, s), n - 1);
    }
  }

  /** Both actors are between handlers. */
  predicate AtRest(s: System) {
    s.watcher == IDLE && s.reconciler == Waiting
  }

  /** A reconciliation that nobody interrupts does what the reconciliation function says. */
  lemma UndisturbedReconciliation(env: Env, s: System, live: PodSet, stale: seq<PodInfo>, missing: seq<PodInfo>)
    returns (n: nat)
    requires s.reconciler == Waiting
    requires Enumerates(stale, Stale(s.shared.tracked, live)) && Enumerates(missing, Missing(s.shared.tracked, live))
    ensures var acts := [List(live)] + ([Diff(stale, missing)] + Steps(n));
            var end := RunActions(env, s, acts);
            && Possible(env, s, acts)
            && end.watcher == s.watcher && end.reconciler == Waiting
            && end.shared == Reconcile(env, s.shared, stale, missing)
  {
    var listed := s.(reconciler := Listed(live));
    var planned := s.(reconciler := Dropping(stale, missing));
    var drops := DropsUndisturbed(env, planned, stale, missing);
    var adds := AddsUndisturbed(env, Moves(env, planned, drops), missing);
    n := drops + adds;
    MovesAppend(env, planned, drops, adds);
    StepsAreMoves(env, planned, n);
    FirstAction(env, listed, Diff(stale, missing), Steps(n));
    FirstAction(env, s, List(live), [Diff(stale, missing)] + Steps(n));
  }

  lemma EventSchedule(env: Env, s: System, pod: PodInfo) returns (acts: seq<Action>)
    requires AtRest(s)
    ensures Possible(env, s, acts) && AtRest(RunActions(env, s, acts))
    ensures RunActions(env, s, acts).shared == HandleEvent(env, s.shared, pod)
  {
    var entered := Act(env, s, WatchEvent(pod));
    var one := Act(env, entered, WatcherStep);
    var two := Act(env, one, WatcherStep);
    acts := [WatchEvent(pod)] + ([WatcherStep] + ([WatcherStep] + ([WatcherStep] + [])));
    FirstAction(env, s, WatchEvent(pod), [WatcherStep] + ([WatcherStep] + ([WatcherStep] + [])));
    FirstAction(env, entered, WatcherStep, [WatcherStep] + ([WatcherStep] + []));
    FirstAction(env, one, WatcherStep, [WatcherStep] + []);
    FirstAction(env, two, WatcherStep, []);
    UndisturbedEvent(env, s, pod);
  }

  lemma DeletionSchedule(env: Env, s: System, pod: PodInfo) returns (acts: seq<Action>)
    requires AtRest(s)
    ensures Possible(env, s, acts) && AtRest(RunActions(env, s, acts))
    ensures RunActions(env, s, acts).shared == HandleDeletion(env, s.shared, pod)
  {
    acts := [WatchDeletion(pod)] + ([WatcherStep] + []);
    FirstAction(env, s, WatchDeletion(pod), [WatcherStep] + []);
    FirstAction(env, Act(env, s, WatchDeletion(pod)), WatcherStep, []);
    UndisturbedDeletion(env, s, pod);
  }

  lemma CommandSchedule(env: Env, s: System, c: Command) returns (acts: seq<Action>)
    requires AtRest(s) && Legal(env, s.shared, [c])
    ensures Possible(env, s, acts) && AtRest(RunActions(env, s, acts))
    ensures RunActions(env, s, acts).shared == Exec(env, s.shared, c)
  {
    assert [c][0] == c;
    match c
    case PodEvent(pod) =>
      acts := EventSchedule(env, s, pod);
    case PodDeletion(pod) =>
      acts := DeletionSchedule(env, s, pod);
    case Reconciliation(live, stale, missing) =>
      var n := UndisturbedReconciliation(env, s, live, stale, missing);
      acts := [List(live)] + ([Diff(stale, missing)] + Steps(n));
  }

  /** Every run of whole handlers and reconciliations is a schedule of the two actors. */
  lemma {:induction false} CommandsAreSchedules(env: Env, s: System, cs: seq<Command>) returns (acts: seq<Action>)
    requires AtRest(s) && Legal(env, s.shared, cs)
    ensures Possible(env, s, acts) && AtRest(RunActions(env, s, acts))
    ensures RunActions(env, s, acts).shared == ExecAll(env, s.shared, cs)
    decreases |cs|
  {
    if cs == [] {
      acts := [];
    } else {
      assert Legal(env, s.shared, [cs[0]]);
      var first := CommandSchedule(env, s, cs[0]);
      var rest := CommandsAreSchedules(env, RunActions(env, s, first), cs[1..]);
      ActionsAppend(env, s, first, rest);
      acts := first + rest;
    }
  }

  // ---------------------------------------------------------------- what interleaving costs

  /**
   * The pod is missing; the reconciler tracks it; before its addition is submitted the watcher sees it
   * deleted and submits the removal first. The worker is then registered for a pod nobody tracks.
   */
  function LateAddition(pod: PodInfo): seq<Action> {
    [List(map[pod.Id() := pod])] + ([Diff([], [pod])] + ([ReconcilerStep] + ([ReconcilerStep] + DeletionFirst(pod))))
  }

  function DeletionFirst(pod: PodInfo): seq<Action> {
    [WatchDeletion(pod)] + ([WatcherStep] + ([ReconcilerStep] + []))
  }

  /** The reconciler has tracked the pod and not yet submitted its addition. */
  function AboutToAdd(pod: PodInfo): System {
    System(State(map[pod.Id() := pod], []), IDLE, AddingMissing([], Adding(pod, 0)), [Inserted(pod)])
  }

  lemma FirstInsertion(env: Env, pod: PodInfo)
    requires pod.IsHealthy()
    ensures Act(env, INITIAL.(reconciler := AddingMissing([pod], Resting)), ReconcilerStep) == AboutToAdd(pod)
  {
    assert Replace(map[], pod) == map[pod.Id() := pod];
    assert [pod][1..] == [];
  }

  lemma ReachesAboutToAdd(env: Env, pod: PodInfo, rest: seq<Action>)
    requires pod.IsHealthy()
    ensures var acts := [List(map[pod.Id() := pod])]
            + ([Diff([], [pod])] + ([ReconcilerStep] + ([ReconcilerStep] + rest)));
            && RunActions(env, INITIAL, acts) == RunActions(env, AboutToAdd(pod), rest)
            && (Possible(env, INITIAL, acts) <==> Possible(env, AboutToAdd(pod), rest))
  {
    var live: PodSet := map[pod.Id() := pod];
    var listed := INITIAL.(reconciler := Listed(live));
    FirstAction(env, INITIAL, List(live), [Diff([], [pod])] + ([ReconcilerStep] + ([ReconcilerStep] + rest)));
    FirstAction(env, listed, Diff([], [pod]), [ReconcilerStep] + ([ReconcilerStep] + rest));
    assert Missing(map[], live) == live && Stale(map[], live) == map[];
    FirstAction(env, INITIAL.(reconciler := Dropping([], [pod])), ReconcilerStep, [ReconcilerStep] + rest);
    FirstAction(env, INITIAL.(reconciler := AddingMissing([pod], Resting)), ReconcilerStep, rest);
    FirstInsertion(env, pod);
  }

  lemma DeletionFirstRuns(env: Env, pod: PodInfo)
    requires forall n :: env.answer(n) == Accepted
    ensures Possible(env, AboutToAdd(pod), DeletionFirst(pod))
    ensures RunActions(env, AboutToAdd(pod), DeletionFirst(pod)).shared
            == State(map[], [Submission(RemoveWorker(pod.WorkerUrl(env.port)), Accepted),
                Submission(AddWorker(SpecOf(env, pod)), Accepted)])
  {
    var start := AboutToAdd(pod);
    var deleted := Act(env, start, WatchDeletion(pod));
    FirstAction(env, start, WatchDeletion(pod), [WatcherStep] + ([ReconcilerStep] + []));
    FirstAction(env, deleted, WatcherStep, [ReconcilerStep] + []);
    FirstAction(env, Act(env, deleted, WatcherStep), ReconcilerStep, []);
    assert deleted.shared.tracked == map[];
  }

  /** So jobs and tracking may part without any failure once handlers overlap. */
  lemma OverlapOrphansWorker(env: Env, pod: PodInfo)
    requires pod.IsHealthy() && forall n :: env.answer(n) == Accepted
    ensures Possible(env, INITIAL, LateAddition(pod))
    ensures Orphaned(env, RunActions(env, INITIAL, LateAddition(pod)).shared, pod.WorkerUrl(env.port))
  {
    ReachesAboutToAdd(env, pod, DeletionFirst(pod));
    DeletionFirstRuns(env, pod);
    RegisteredSnoc([Submission(RemoveWorker(pod.WorkerUrl(env.port)), Accepted)],
        Submission(AddWorker(SpecOf(env, pod)), Accepted));
  }

  // ---------------------------------------------------------------- a live pod without a worker

  /**
   * The pod is tracked and missing from a list; before its planned removal is submitted it restarts at the
   * same address. The removal then takes the new pod's worker, and the new pod stays tracked.
   */
  function LateRemoval(first: PodInfo, second: PodInfo): seq<Action> {
    [WatchEvent(first)] + ([WatcherStep] + ([List(map[])] + ([Diff([first], [])] + RestartFirst(second))))
  }

  function RestartFirst(second: PodInfo): seq<Action> {
    [WatchEvent(second)] + ([WatcherStep] + ([WatcherStep] + Steps(4)))
  }

  /** The removal of the first pod is planned and not yet submitted. */
  function Planned(env: Env, first: PodInfo): System {
    System(
      State(map[first.Id() := first], [Submission(AddWorker(SpecOf(env, first)), Accepted)]),
      IDLE, Dropping([first], []),
      [Inserted(first), SubmittedAdd(first, 0, Accepted)])
  }

  function Added(env: Env, first: PodInfo): System {
    Planned(env, first).(reconciler := Waiting)
  }

  lemma ReachesAdded(env: Env, first: PodInfo, rest: seq<Action>)
    requires first.IsHealthy() && forall n :: env.answer(n) == Accepted
    ensures var acts := [WatchEvent(first)] + ([WatcherStep] + rest);
            && RunActions(env, INITIAL, acts) == RunActions(env, Added(env, first), rest)
            && (Possible(env, INITIAL, acts) <==> Possible(env, Added(env, first), rest))
  {
    var adding := Act(env, INITIAL, WatchEvent(first));
    assert Replace(map[], first) == map[first.Id() := first];
    FirstAction(env, INITIAL, WatchEvent(first), [WatcherStep] + rest);
    FirstAction(env, adding, WatcherStep, rest);
    assert Act(env, adding, WatcherStep) == Added(env, first);
  }

  lemma ReachesPlanned(env: Env, first: PodInfo, rest: seq<Action>)
    requires first.IsHealthy() && forall n :: env.answer(n) == Accepted
    ensures var acts := [WatchEvent(first)] + ([WatcherStep] + ([List(map[])] + ([Diff([first], [])] + rest)));
            && RunActions(env, INITIAL, acts) == RunActions(env, Planned(env, first), rest)
            && (Possible(env, INITIAL, acts) <==> Possible(env, Planned(env, first), rest))
  {
    var added := Added(env, first);
    ReachesAdded(env, first, [List(map[])] + ([Diff([first], [])] + rest));
    FirstAction(env, added, List(map[]), [Diff([first], [])] + rest);
    FirstAction(env, added.(reconciler := Listed(map[])), Diff([first], []), rest);
    assert Stale(added.shared.tracked, map[]) == map[first.Id() := first];
    assert Missing(added.shared.tracked, map[]) == map[];
  }

  function RestartLog(env: Env, first: PodInfo, second: PodInfo): seq<Submission> {
    [Submission(AddWorker(SpecOf(env, first)), Accepted)]
    + [Submission(RemoveWorker(first.WorkerUrl(env.port)), Accepted)]
    + [Submission(AddWorker(SpecOf(env, second)), Accepted)]
  }

  lemma RestartSwaps(env: Env, first: PodInfo, second: PodInfo)
    requires second.IsHealthy() && IsRestartOf(first.Id(), second)
    ensures var entered := Act(env, Planned(env, first), WatchEvent(second));
            && entered.shared == Planned(env, first).shared.(tracked := map[second.Id() := second])
            && entered.watcher == OnEvent(Evicting(second, first, 3))
            && entered.reconciler == Dropping([first], [])
  {
    var tracked: PodSet := map[first.Id() := first];
    EvictedUnique(tracked, second, first.Id());
    assert Replace(tracked, second) == map[second.Id() := second];
  }

  /** The restarted pod has been added; the planned removal is still to come. */
  lemma RestartAdds(env: Env, first: PodInfo, second: PodInfo) returns (mid: System)
    requires second.IsHealthy() && IsRestartOf(first.Id(), second) && forall n :: env.answer(n) == Accepted
    ensures forall rest ::
              var acts := [WatchEvent(second)] + ([WatcherStep] + ([WatcherStep] + rest));
              && RunActions(env, Planned(env, first), acts) == RunActions(env, mid, rest)
              && (Possible(env, Planned(env, first), acts) <==> Possible(env, mid, rest))
    ensures mid.shared == State(map[second.Id() := second], RestartLog(env, first, second))
    ensures mid.watcher == IDLE && mid.reconciler == Dropping([first], [])
  {
    var entered := Act(env, Planned(env, first), WatchEvent(second));
    var evicted := Act(env, entered, WatcherStep);
    mid := Act(env, evicted, WatcherStep);
    RestartSwaps(env, first, second);
    forall rest
      ensures var acts := [WatchEvent(second)] + ([WatcherStep] + ([WatcherStep] + rest));
              && RunActions(env, Planned(env, first), acts) == RunActions(env, mid, rest)
              && (Possible(env, Planned(env, first), acts) <==> Possible(env, mid, rest))
    {
      FirstAction(env, Planned(env, first), WatchEvent(second), [WatcherStep] + ([WatcherStep] + rest));
      FirstAction(env, entered, WatcherStep, [WatcherStep] + rest);
      FirstAction(env, evicted, WatcherStep, rest);
    }
  }

  lemma PlannedRemovalRuns(env: Env, s: System, first: PodInfo)
    requires s.reconciler == Dropping([first], []) && first.Id() !in s.shared.tracked
            && env.answer(|s.shared.log|) == Accepted
    ensures var end := Moves(env, s, 4);
            && end.reconciler == Waiting && end.watcher == s.watcher
            && end.shared == Submit(env, s.shared, RemoveWorker(first.WorkerUrl(env.port)))
  {
    var one := ReconcilerMove(env, s);
    var two := ReconcilerMove(env, one);
    assert one.reconciler == DropAccepted([first], []) && one.shared.tracked == s.shared.tracked;
    assert two.reconciler == Dropping([], []) && two.shared == one.shared;
    MovesAppend(env, s, 1, 3);
    MovesAppend(env, one, 1, 2);
    MovesAppend(env, two, 1, 1);
  }

  lemma NoWorkerLeft(env: Env, first: PodInfo, second: PodInfo)
    requires first.ip == second.ip
    ensures Registered(RestartLog(env, first, second)
            + [Submission(RemoveWorker(first.WorkerUrl(env.port)), Accepted)]) == map[]
  {
    var url := first.WorkerUrl(env.port);
    var a, b, c := Submission(AddWorker(SpecOf(env, first)), Accepted), Submission(RemoveWorker(url), Accepted),
      Submission(AddWorker(SpecOf(env, second)), Accepted);
    RegisteredSnoc([], a);
    RegisteredSnoc([a], b);
    RegisteredSnoc([a] + [b], c);
    RegisteredSnoc([a] + [b] + [c], b);
    assert [] + [a] == [a];
  }

  /**
   * So without any failure a live, healthy, tracked pod can end up without a worker. It stays without one over every
   * later run, whatever the answers, while the cluster shows the pod and nothing else of its name or at its address.
   */
  lemma OverlapLosesWorker(env: Env, first: PodInfo, second: PodInfo)
    requires first.IsHealthy() && second.IsHealthy() && IsRestartOf(first.Id(), second) && first.ip == second.ip
    requires forall n :: env.answer(n) == Accepted
    ensures Possible(env, INITIAL, LateRemoval(first, second))
    ensures var end := RunActions(env, INITIAL, LateRemoval(first, second));
            && AtRest(end) && end.shared.tracked == map[second.Id() := second] && Registered(end.shared.log) == map[]
    ensures forall later: Env, cs ::
              var end := RunActions(env, INITIAL, LateRemoval(first, second)).shared;
              later.port == env.port && Legal(later, end, cs) && (forall c :: c in cs ==> Quiet(later, second, c)) ==>
                Lost(later, ExecAll(later, end, cs), second)
  {
    ReachesPlanned(env, first, RestartFirst(second));
    var mid := RestartAdds(env, first, second);
    assert RestartFirst(second) == [WatchEvent(second)] + ([WatcherStep] + ([WatcherStep] + Steps(4)));
    StepsAreMoves(env, mid, 4);
    PlannedRemovalRuns(env, mid, first);
    NoWorkerLeft(env, first, second);
    var end := RunActions(env, INITIAL, LateRemoval(first, second)).shared;
    forall later: Env, cs |
      later.port == env.port && Legal(later, end, cs) && forall c :: c in cs ==> Quiet(later, second, c)
      ensures Lost(later, ExecAll(later, end, cs), second)
    {
      NoReconciliationHelps(later, end, cs, second);
    }
  }

  // ---------------------------------------------------------------- an overlap without harm

  /** As in `LateAddition`, but the submissions follow the order of the lock sections. */
  function EarlyAddition(pod: PodInfo): seq<Action> {
    [List(map[pod.Id() := pod])] + ([Diff([], [pod])] + ([ReconcilerStep] + ([ReconcilerStep] + AdditionFirst(pod))))
  }

  function AdditionFirst(pod: PodInfo): seq<Action> {
    [WatchDeletion(pod)] + ([ReconcilerStep] + ([WatcherStep] + []))
  }

  lemma AdditionFirstRuns(env: Env, pod: PodInfo)
    requires forall n :: env.answer(n) == Accepted
    ensures Possible(env, AboutToAdd(pod), AdditionFirst(pod))
    ensures var end := RunActions(env, AboutToAdd(pod), AdditionFirst(pod));
            && Owed(env, end) == {}
            && end.shared == State(map[], [Submission(AddWorker(SpecOf(env, pod)), Accepted)]
                                          + [Submission(RemoveWorker(pod.WorkerUrl(env.port)), Accepted)])
  {
    var start := AboutToAdd(pod);
    var deleted := Act(env, start, WatchDeletion(pod));
    FirstAction(env, start, WatchDeletion(pod), [ReconcilerStep] + ([WatcherStep] + []));
    FirstAction(env, deleted, ReconcilerStep, [WatcherStep] + []);
    FirstAction(env, Act(env, deleted, ReconcilerStep), WatcherStep, []);
    assert deleted.shared.tracked == map[];
  }

  lemma {:induction false} OrderlySuffix(env: Env, s: System, a: seq<Action>, b: seq<Action>)
    requires OrderlyThroughout(env, s, a + b)
    ensures OrderlyThroughout(env, RunActions(env, s, a), b)
    decreases |a|
  {
    if a == [] {
      assert a + b == b;
    } else {
      assert (a + b)[1..] == a[1..] + b;
      OrderlySuffix(env, Act(env, s, a[0]), a[1..], b);
    }
  }

  lemma NotOrderly(env: Env, pod: PodInfo)
    requires pod.IsHealthy()
    ensures !OrderlyThroughout(env, INITIAL, EarlyAddition(pod))
  {
    var lead := [List(map[pod.Id() := pod])] + ([Diff([], [pod])] + ([ReconcilerStep] + ([ReconcilerStep] + [])));
    assert EarlyAddition(pod) == lead + AdditionFirst(pod);
    ReachesAboutToAdd(env, pod, []);
    var url := pod.WorkerUrl(env.port);
    assert url in OwedByWatcher(env, Act(env, AboutToAdd(pod), WatchDeletion(pod)).watcher);
    assert !Orderly(env, AboutToAdd(pod), AdditionFirst(pod)[0]);
    if OrderlyThroughout(env, INITIAL, lead + AdditionFirst(pod)) {
      OrderlySuffix(env, INITIAL, lead, AdditionFirst(pod));
    }
  }

  /** The discipline is not needed by every run: this one breaks it and still ends in step. */
  lemma HarmlessOverlap(env: Env, pod: PodInfo)
    requires pod.IsHealthy() && forall n :: env.answer(n) == Accepted
    ensures Possible(env, INITIAL, EarlyAddition(pod))
    ensures !OrderlyThroughout(env, INITIAL, EarlyAddition(pod))
    ensures var end := RunActions(env, INITIAL, EarlyAddition(pod)); Owed(env, end) == {} && Refines(env, end.shared)
  {
    NotOrderly(env, pod);
    ReachesAboutToAdd(env, pod, AdditionFirst(pod));
    AdditionFirstRuns(env, pod);
    var url := pod.WorkerUrl(env.port);
    RegisteredSnoc([Submission(AddWorker(SpecOf(env, pod)), Accepted)], Submission(RemoveWorker(url), Accepted));
    RegisteredSnoc([], Submission(AddWorker(SpecOf(env, pod)), Accepted));
    assert [] + [Submission(AddWorker(SpecOf(env, pod)), Accepted)]
        == [Submission(AddWorker(SpecOf(env, pod)), Accepted)];
  }
}
