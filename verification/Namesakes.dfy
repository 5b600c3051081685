/**
 * Live pods of one name, as a watch over all namespaces can list them. Eviction compares names only, so two healthy
 * namesakes displace each other and reconciliation never settles.
 */
module Namesakes {
  import opened Text
  import opened Pods
  import opened Discovery
  import opened Convergence

  /** No two healthy live pods share a name. */
  predicate HealthyNamesUnique(live: PodSet) {
    forall a, b :: a in HealthyIds(live) && b in HealthyIds(live) && a.name == b.name ==> a == b
  }

  // ---------------------------------------------------------------- what one step does to the gap

  /** One if the predecessor that an addition evicts was itself a healthy live pod. */
  ghost function Displaced(tracked: PodSet, pod: PodInfo, live: PodSet): nat {
    var prior := Evicted(tracked, pod);
    if prior.Some? && prior.value in HealthyIds(live) then 1 else 0
  }

  /** One if the predecessor was not live, so that evicting it was wanted anyway. */
  ghost function Cleared(tracked: PodSet, pod: PodInfo, live: PodSet): nat {
    var prior := Evicted(tracked, pod);
    if prior.Some? && prior.value !in live then 1 else 0
  }

  function Gained(outcome: Outcome): nat {
    if outcome == Rejected then 0 else 1
  }

  lemma RemoveSize<T>(s: set<T>, x: T)
    ensures |s - {x}| == |s| - if x in s then 1 else 0
  {
    if x in s {
      assert s == (s - {x}) + {x};
    } else {
      assert s - {x} == s;
    }
  }

  lemma AddSize<T>(s: set<T>, x: T)
    ensures |s + {x}| == |s| + if x in s then 0 else 1
  {
    if x in s {
      assert s + {x} == s;
    }
  }

  lemma StaleWithout<T>(tracked: set<T>, live: set<T>, id: T)
    requires id in tracked
    ensures |tracked - {id} - live| == |tracked - live| - if id in live then 0 else 1
  {
    assert tracked - {id} - live == tracked - live - {id};
    RemoveSize(tracked - live, id);
  }

  lemma MissingWithout<T>(healthy: set<T>, tracked: set<T>, id: T)
    requires id in tracked
    ensures |healthy - (tracked - {id})| == |healthy - tracked| + if id in healthy then 1 else 0
  {
    if id in healthy {
      assert healthy - (tracked - {id}) == healthy - tracked + {id};
      AddSize(healthy - tracked, id);
    } else {
      assert healthy - (tracked - {id}) == healthy - tracked;
    }
  }

  lemma UntrackGap(tracked: PodSet, live: PodSet, id: PodId)
    requires id in tracked
    ensures Gap(tracked - {id}, live)
            == Gap(tracked, live) + (if id in HealthyIds(live) then 1 else 0) - (if id in live then 0 else 1)
  {
    assert (tracked - {id}).Keys == tracked.Keys - {id};
    StaleWithout(tracked.Keys, live.Keys, id);
    MissingWithout(HealthyIds(live), tracked.Keys, id);
  }

  /** Tracking a wanted pod is the converse of untracking it. */
  lemma TrackGap(tracked: PodSet, live: PodSet, pod: PodInfo)
    requires Wanted(pod, tracked, live)
    ensures Gap(tracked[pod.Id() := pod], live) == Gap(tracked, live) - 1
  {
    var more := tracked[pod.Id() := pod];
    assert more - {pod.Id()} == tracked;
    UntrackGap(more, live, pod.Id());
  }

  lemma SparedGap(tracked: PodSet, pod: PodInfo, live: PodSet)
    requires Wanted(pod, tracked, live)
    ensures Gap(Spared(tracked, pod), live) == Gap(tracked, live) + Displaced(tracked, pod, live)
                                             - Cleared(tracked, pod, live)
    ensures Wanted(pod, Spared(tracked, pod), live)
  {
    var prior := Evicted(tracked, pod);
    if prior.Some? {
      UntrackGap(tracked, live, prior.value);
    }
  }

  /**
   * For every live set and every answer: an addition narrows the gap by the pod it tracks and by a predecessor that
   * was not live, and widens it by a healthy live pod that it displaces.
   */
  lemma AddStepGap(env: Env, st: State, pod: PodInfo, live: PodSet)
    requires Wanted(pod, st.tracked, live)
    ensures Gap(HandleEvent(env, st, pod).tracked, live)
            == Gap(st.tracked, live) + Displaced(st.tracked, pod, live) - Cleared(st.tracked, pod, live)
               - Gained(env.answer(|st.log| + Removals(st.tracked, pod)))
  {
    AddStepTracked(env, st, pod);
    SparedGap(st.tracked, pod, live);
    TrackGap(Spared(st.tracked, pod), live, pod);
  }

  /** So it widens the gap exactly if it displaces a healthy live pod and is itself rejected. */
  lemma AddStepWidensIff(env: Env, st: State, pod: PodInfo, live: PodSet)
    requires Wanted(pod, st.tracked, live)
    ensures Gap(HandleEvent(env, st, pod).tracked, live) > Gap(st.tracked, live)
            <==> Displaced(st.tracked, pod, live) == 1 && env.answer(|st.log| + Removals(st.tracked, pod)) == Rejected
  {
    AddStepGap(env, st, pod, live);
  }

  // ---------------------------------------------------------------- when a cycle settles

  lemma StillWanted(env: Env, st: State, missing: seq<PodInfo>, live: PodSet)
    requires Addable(missing, st.tracked, live) && missing != []
    ensures Addable(missing[1..], HandleEvent(env, st, missing[0]).tracked, live)
  {
    AddStepTracked(env, st, missing[0]);
  }

  /** An addition leaves every healthy live pod in place when no two of them share a name. */
  lemma HealthySpared(tracked: PodSet, pod: PodInfo, live: PodSet)
    requires HealthyNamesUnique(live) && Wanted(pod, tracked, live)
    ensures HealthyIds(live) * tracked.Keys <= Spared(tracked, pod).Keys <= tracked.Keys
  {
    var prior := Evicted(tracked, pod);
    if prior.Some? {
      assert pod.Id() in HealthyIds(live) && IsRestartOf(prior.value, pod);
      assert prior.value !in HealthyIds(live);
    }
  }

  lemma {:induction false} AddAllSettles(env: Env, st: State, missing: seq<PodInfo>, live: PodSet)
    requires AlwaysAccepts(env) && HealthyNamesUnique(live)
    requires st.tracked.Keys <= live.Keys && Addable(missing, st.tracked, live)
    ensures var end := AddAll(env, st, missing).tracked;
            end.Keys <= live.Keys && HealthyIds(live) * st.tracked.Keys + Ids(missing) <= end.Keys
    decreases |missing|
  {
    if missing == [] {
    } else {
      var pod, next := missing[0], HandleEvent(env, st, missing[0]);
      AddStepTracked(env, st, pod);
      HealthySpared(st.tracked, pod, live);
      StillWanted(env, st, missing, live);
      AddAllSettles(env, next, missing[1..], live);
      assert pod.Id() in HealthyIds(live) * next.tracked.Keys;
    }
  }

  /** Two healthy live namesakes cannot both be tracked, so there is always something to do. */
  lemma NamesakesLeaveGap(tracked: PodSet, live: PodSet)
    requires UniqueNames(tracked) && !HealthyNamesUnique(live)
    ensures Gap(tracked, live) > 0
  {
    var a, b :| a in HealthyIds(live) && b in HealthyIds(live) && a.name == b.name && a != b;
    assert a in HealthyIds(live) - tracked.Keys || b in HealthyIds(live) - tracked.Keys;
  }

  lemma {:induction false} DropAllUnique(env: Env, st: State, stale: seq<PodInfo>)
    requires UniqueNames(st.tracked)
    ensures UniqueNames(DropAll(env, st, stale).tracked)
    decreases |stale|
  {
    if stale == [] {
    } else {
      DropAllUnique(env, DropStale(env, st, stale[0]), stale[1..]);
    }
  }

  lemma {:induction false} AddAllUnique(env: Env, st: State, missing: seq<PodInfo>)
    requires UniqueNames(st.tracked)
    ensures UniqueNames(AddAll(env, st, missing).tracked)
    decreases |missing|
  {
    if missing == [] {
    } else {
      EventKeepsUniqueNames(env, st, missing[0]);
      AddAllUnique(env, HandleEvent(env, st, missing[0]), missing[1..]);
    }
  }

  lemma ReconcileUnique(env: Env, st: State, c: Cycle)
    requires UniqueNames(st.tracked)
    ensures UniqueNames(RunCycle(env, st, c).tracked)
  {
    DropAllUnique(env, st, c.stale);
    AddAllUnique(env, DropAll(env, st, c.stale), c.missing);
  }

  lemma NothingToDo(tracked: PodSet, live: PodSet)
    requires tracked.Keys <= live.Keys && HealthyIds(live) <= tracked.Keys
    ensures Gap(tracked, live) == 0
  {
    assert tracked.Keys - live.Keys == {} && HealthyIds(live) - tracked.Keys == {};
  }

  lemma HealthyCovered(tracked: PodSet, kept: PodSet, live: PodSet, missing: seq<PodInfo>)
    requires kept.Keys == tracked.Keys * live.Keys && Enumerates(missing, Missing(tracked, live))
    ensures HealthyIds(live) <= HealthyIds(live) * kept.Keys + Ids(missing)
  {
    DifferenceIds(tracked, live);
    EnumeratedIds(missing, Missing(tracked, live));
  }

  lemma CycleSettles(env: Env, st: State, live: PodSet, c: Cycle)
    requires AlwaysAccepts(env) && HealthyNamesUnique(live)
    requires Enumerates(c.stale, Stale(st.tracked, live)) && Enumerates(c.missing, Missing(st.tracked, live))
    ensures Gap(RunCycle(env, st, c).tracked, live) == 0
  {
    var mid := DropAll(env, st, c.stale);
    DropAllAccepted(env, st, c.stale);
    KeysAfterDrop(st.tracked, live, c.stale);
    HealthyCovered(st.tracked, mid.tracked, live, c.missing);
    CycleInputs(st.tracked, live, c.stale, c.missing);
    AddAllSettles(env, mid, c.missing, live);
    NothingToDo(RunCycle(env, st, c).tracked, live);
  }

  /** For every live set: one failure-free cycle closes the gap exactly if no two healthy live pods share a name. */
  lemma SettlesIff(env: Env, st: State, live: PodSet, c: Cycle)
    requires AlwaysAccepts(env) && UniqueNames(st.tracked)
    requires Enumerates(c.stale, Stale(st.tracked, live)) && Enumerates(c.missing, Missing(st.tracked, live))
    ensures Gap(RunCycle(env, st, c).tracked, live) == 0 <==> HealthyNamesUnique(live)
  {
    ReconcileUnique(env, st, c);
    if HealthyNamesUnique(live) {
      CycleSettles(env, st, live, c);
    } else {
      NamesakesLeaveGap(RunCycle(env, st, c).tracked, live);
    }
  }

  /** With healthy namesakes no number of cycles settles, whatever the queue answers. */
  lemma {:induction false} NeverSettles(env: Env, st: State, live: PodSet, cycles: seq<Cycle>)
    requires UniqueNames(st.tracked) && !HealthyNamesUnique(live)
    ensures Gap(RunCycles(env, st, cycles).tracked, live) > 0
    decreases |cycles|
  {
    if cycles == [] {
      NamesakesLeaveGap(st.tracked, live);
    } else {
      ReconcileUnique(env, st, cycles[0]);
      NeverSettles(env, RunCycle(env, st, cycles[0]), live, cycles[1..]);
    }
  }

  lemma {:induction false} DropAllLog(env: Env, st: State, stale: seq<PodInfo>)
    ensures |DropAll(env, st, stale).log| == |st.log| + |stale|
    decreases |stale|
  {
    if stale == [] {
    } else {
      DropAllLog(env, DropStale(env, st, stale[0]), stale[1..]);
    }
  }

  lemma {:induction false} DropAllKeepsOut(env: Env, st: State, stale: seq<PodInfo>)
    ensures DropAll(env, st, stale).tracked.Keys <= st.tracked.Keys
    decreases |stale|
  {
    if stale == [] {
    } else {
      DropAllKeepsOut(env, DropStale(env, st, stale[0]), stale[1..]);
    }
  }

  lemma {:induction false} AddAllLog(env: Env, st: State, missing: seq<PodInfo>, live: PodSet)
    requires Addable(missing, st.tracked, live)
    ensures |AddAll(env, st, missing).log| >= |st.log| + |missing|
    decreases |missing|
  {
    if missing == [] {
    } else {
      AddStepLog(env, st, missing[0]);
      StillWanted(env, st, missing, live);
      AddAllLog(env, HandleEvent(env, st, missing[0]), missing[1..], live);
    }
  }

  lemma StillAddable(tracked: PodSet, fewer: PodSet, live: PodSet, missing: seq<PodInfo>)
    requires Addable(missing, tracked, live) && fewer.Keys <= tracked.Keys
    ensures Addable(missing, fewer, live)
  {
  }

  /** A cycle submits a job for everything that it finds to do. */
  lemma CycleLog(env: Env, st: State, live: PodSet, c: Cycle)
    requires Enumerates(c.stale, Stale(st.tracked, live)) && Enumerates(c.missing, Missing(st.tracked, live))
    ensures |RunCycle(env, st, c).log| >= |st.log| + Gap(st.tracked, live)
  {
    CycleInputs(st.tracked, live, c.stale, c.missing);
    DropAllLog(env, st, c.stale);
    DropAllKeepsOut(env, st, c.stale);
    StillAddable(st.tracked, DropAll(env, st, c.stale).tracked, live, c.missing);
    AddAllLog(env, DropAll(env, st, c.stale), c.missing, live);
  }

  /** The cycle after a failure-free one submits nothing exactly if no two healthy live pods share a name. */
  lemma SecondCycleSilentIff(env: Env, st: State, live: PodSet, first: Cycle, second: Cycle)
    requires AlwaysAccepts(env) && UniqueNames(st.tracked)
    requires Enumerates(first.stale, Stale(st.tracked, live)) && Enumerates(first.missing, Missing(st.tracked, live))
    requires var mid := RunCycle(env, st, first);
             && Enumerates(second.stale, Stale(mid.tracked, live))
             && Enumerates(second.missing, Missing(mid.tracked, live))
    ensures RunCycle(env, RunCycle(env, st, first), second) == RunCycle(env, st, first) <==> HealthyNamesUnique(live)
  {
    var mid := RunCycle(env, st, first);
    SettlesIff(env, st, live, first);
    CycleInputs(mid.tracked, live, second.stale, second.missing);
    CycleLog(env, mid, live, second);
  }

  // ---------------------------------------------------------------- balances over a cycle

  /** The sum of what each addition of a cycle does at its turn. */
  ghost function SumOf(env: Env, st: State, missing: seq<PodInfo>, delta: (State, PodInfo) -> int): int
    decreases |missing|
  {
    if missing == [] then 0
    else delta(st, missing[0]) + SumOf(env, HandleEvent(env, st, missing[0]), missing[1..], delta)
  }

  /** Every addition changes a measure of the tracked set by `delta`. */
  ghost predicate Moves(env: Env, live: PodSet, size: PodSet -> int, delta: (State, PodInfo) -> int) {
    forall st: State, pod :: Wanted(pod, st.tracked, live) ==>
        size(HandleEvent(env, st, pod).tracked) == size(st.tracked) + delta(st, pod)
  }

  lemma {:induction false} MovesSum(env: Env, st: State, missing: seq<PodInfo>, live: PodSet, size: PodSet -> int,
                                    delta: (State, PodInfo) -> int)
    requires Addable(missing, st.tracked, live) && Moves(env, live, size, delta)
    ensures size(AddAll(env, st, missing).tracked) == size(st.tracked) + SumOf(env, st, missing, delta)
    decreases |missing|
  {
    if missing == [] {
    } else {
      StillWanted(env, st, missing, live);
      MovesSum(env, HandleEvent(env, st, missing[0]), missing[1..], live, size, delta);
    }
  }

  ghost function AnswerTo(env: Env, st: State, pod: PodInfo): Outcome {
    env.answer(|st.log| + Removals(st.tracked, pod))
  }

  /** A healthy live predecessor displaced, less one not live cleared, less the pod if it is added. */
  ghost function Widening(env: Env, live: PodSet): (State, PodInfo) -> int {
    (st: State, pod: PodInfo) =>
      Displaced(st.tracked, pod, live) - Cleared(st.tracked, pod, live) - Gained(AnswerTo(env, st, pod))
  }

  /** The pod if it is added, less its predecessor. */
  ghost function Growth(env: Env): (State, PodInfo) -> int {
    (st: State, pod: PodInfo) => Gained(AnswerTo(env, st, pod)) - Removals(st.tracked, pod)
  }

  /** The pod if it is added. */
  ghost function Addition(env: Env): (State, PodInfo) -> int {
    (st: State, pod: PodInfo) => Gained(AnswerTo(env, st, pod))
  }

  /** The pod if it is added in the place of a tracked namesake. */
  ghost function Replacement(env: Env): (State, PodInfo) -> int {
    (st: State, pod: PodInfo) => if Removals(st.tracked, pod) == 1 then Gained(AnswerTo(env, st, pod)) else 0
  }

  ghost function GapTo(live: PodSet): PodSet -> int {
    (tracked: PodSet) => Gap(tracked, live)
  }

  lemma WideningIs(env: Env, st: State, pod: PodInfo, live: PodSet, next: PodSet)
    requires Gap(next, live)
             == Gap(st.tracked, live) + Displaced(st.tracked, pod, live) - Cleared(st.tracked, pod, live)
                - Gained(AnswerTo(env, st, pod))
    ensures GapTo(live)(next) == GapTo(live)(st.tracked) + Widening(env, live)(st, pod)
  {
  }

  lemma WideningStep(env: Env, st: State, pod: PodInfo, live: PodSet)
    requires Wanted(pod, st.tracked, live)
    ensures GapTo(live)(HandleEvent(env, st, pod).tracked) == GapTo(live)(st.tracked) + Widening(env, live)(st, pod)
  {
    AddStepGap(env, st, pod, live);
    WideningIs(env, st, pod, live, HandleEvent(env, st, pod).tracked);
  }

  lemma GapMoves(env: Env, live: PodSet)
    ensures Moves(env, live, GapTo(live), Widening(env, live))
  {
    var size, delta := GapTo(live), Widening(env, live);
    forall st: State, pod | Wanted(pod, st.tracked, live)
      ensures size(HandleEvent(env, st, pod).tracked) == size(st.tracked) + delta(st, pod)
    {
      WideningStep(env, st, pod, live);
    }
  }

  /** The gap after the additions of a cycle, for every live set and every answer. */
  lemma AddAllGap(env: Env, st: State, missing: seq<PodInfo>, live: PodSet)
    requires Addable(missing, st.tracked, live)
    ensures Gap(AddAll(env, st, missing).tracked, live)
            == Gap(st.tracked, live) + SumOf(env, st, missing, Widening(env, live))
  {
    GapMoves(env, live);
    MovesSum(env, st, missing, live, GapTo(live), Widening(env, live));
  }

  lemma StepSize(tracked: PodSet, pod: PodInfo)
    requires pod.Id() !in tracked
    ensures |Spared(tracked, pod)| == |tracked| - Removals(tracked, pod)
    ensures |Spared(tracked, pod)[pod.Id() := pod]| == |tracked| - Removals(tracked, pod) + 1
  {
    var prior, spared := Evicted(tracked, pod), Spared(tracked, pod);
    if prior.Some? {
      RemoveSize(tracked.Keys, prior.value);
      assert spared.Keys == tracked.Keys - {prior.value};
    }
    assert spared[pod.Id() := pod].Keys == spared.Keys + {pod.Id()};
  }

  ghost function Size(): PodSet -> int {
    (tracked: PodSet) => |tracked|
  }

  lemma AddStepMeasured(env: Env, st: State, pod: PodInfo, size: PodSet -> int)
    requires pod.IsHealthy() && pod.Id() !in st.tracked
    ensures var spared := Spared(st.tracked, pod);
            size(HandleEvent(env, st, pod).tracked)
            == size(if AnswerTo(env, st, pod) == Rejected then spared else spared[pod.Id() := pod])
  {
    AddStepTracked(env, st, pod);
  }

  lemma AddStepSize(env: Env, st: State, pod: PodInfo)
    requires pod.IsHealthy() && pod.Id() !in st.tracked
    ensures |HandleEvent(env, st, pod).tracked|
            == |st.tracked| - Removals(st.tracked, pod) + Gained(AnswerTo(env, st, pod))
  {
    StepSize(st.tracked, pod);
    AddStepMeasured(env, st, pod, Size());
  }

  lemma SizeMoves(env: Env, live: PodSet)
    ensures Moves(env, live, Size(), Growth(env))
  {
    forall st: State, pod | Wanted(pod, st.tracked, live)
      ensures Size()(HandleEvent(env, st, pod).tracked) == Size()(st.tracked) + Growth(env)(st, pod)
    {
      AddStepSize(env, st, pod);
    }
  }

  /** The tracked set after them: each addition less the namesake that it evicts, also when it is rejected. */
  lemma AddAllSize(env: Env, st: State, missing: seq<PodInfo>, live: PodSet)
    requires Addable(missing, st.tracked, live)
    ensures |AddAll(env, st, missing).tracked| == |st.tracked| + SumOf(env, st, missing, Growth(env))
  {
    SizeMoves(env, live);
    MovesSum(env, st, missing, live, Size(), Growth(env));
  }

  /**
   * The logged count and the replacements make up the additions, so the count is their number exactly if no pod took
   * the place of a namesake that was tracked at its turn.
   */
  lemma {:induction false} CountBalance(env: Env, st: State, missing: seq<PodInfo>, live: PodSet)
    requires Addable(missing, st.tracked, live)
    ensures AddedCount(env, st, missing) + SumOf(env, st, missing, Replacement(env))
            == SumOf(env, st, missing, Addition(env))
    ensures SumOf(env, st, missing, Replacement(env)) >= 0
    decreases |missing|
  {
    if missing == [] {
    } else {
      AddStepSize(env, st, missing[0]);
      StillWanted(env, st, missing, live);
      CountBalance(env, HandleEvent(env, st, missing[0]), missing[1..], live);
    }
  }

  ghost function DroppedCount(env: Env, st: State, stale: seq<PodInfo>): nat
    decreases |stale|
  {
    if stale == [] then 0
    else
      (if env.answer(|st.log|) == Accepted then 1 else 0) + DroppedCount(env, DropStale(env, st, stale[0]), stale[1..])
  }

  lemma DropStepGap(env: Env, st: State, pod: PodInfo, live: PodSet)
    requires pod.Id() in st.tracked && pod.Id() !in live
    ensures Gap(DropStale(env, st, pod).tracked, live)
            == Gap(st.tracked, live) - if env.answer(|st.log|) == Accepted then 1 else 0
  {
    UntrackGap(st.tracked, live, pod.Id());
  }

  lemma StillDroppable(env: Env, st: State, stale: seq<PodInfo>, live: PodSet)
    requires Droppable(stale, st.tracked, live) && stale != []
    ensures Droppable(stale[1..], DropStale(env, st, stale[0]).tracked, live)
  {
  }

  lemma {:induction false} DropAllGap(env: Env, st: State, stale: seq<PodInfo>, live: PodSet)
    requires Droppable(stale, st.tracked, live)
    ensures Gap(DropAll(env, st, stale).tracked, live) == Gap(st.tracked, live) - DroppedCount(env, st, stale)
    decreases |stale|
  {
    if stale == [] {
    } else {
      DropStepGap(env, st, stale[0], live);
      StillDroppable(env, st, stale, live);
      DropAllGap(env, DropStale(env, st, stale[0]), stale[1..], live);
    }
  }

  /**
   * Over a whole cycle, for every live set and every answer, the gap falls by what was dropped, added and cleared, and
   * rises by the healthy live pods that were displaced.
   */
  lemma CycleBalance(env: Env, st: State, live: PodSet, c: Cycle)
    requires Enumerates(c.stale, Stale(st.tracked, live)) && Enumerates(c.missing, Missing(st.tracked, live))
    ensures Gap(RunCycle(env, st, c).tracked, live)
            == Gap(st.tracked, live) - DroppedCount(env, st, c.stale)
               + SumOf(env, DropAll(env, st, c.stale), c.missing, Widening(env, live))
  {
    var mid := DropAll(env, st, c.stale);
    CycleInputs(st.tracked, live, c.stale, c.missing);
    DropAllGap(env, st, c.stale, live);
    DropAllKeepsOut(env, st, c.stale);
    StillAddable(st.tracked, mid.tracked, live, c.missing);
    AddAllGap(env, mid, c.missing, live);
  }
}
