/** What undisturbed reconciliation cycles achieve, with and without failing submissions. */
module Convergence {
  import opened Text
  import opened Pods
  import opened Discovery

  function HealthyIds(live: PodSet): set<PodId> {
    set k | k in live && live[k].IsHealthy()
  }

  /** How far the tracked set is from the live one: how many pods a cycle wants to drop or to add. */
  function Gap(tracked: PodSet, live: PodSet): nat {
    |tracked.Keys - live.Keys| + |HealthyIds(live) - tracked.Keys|
  }

  /** Every live pod tracked before is tracked as it was, and what is new is live and healthy. */
  predicate Closer(before: PodSet, after: PodSet, live: PodSet) {
    && before.Keys * live.Keys <= after.Keys <= before.Keys + HealthyIds(live)
    && (forall k :: k in after && k in before ==> after[k] == before[k])
    && (forall k :: k in after && k !in before ==> k in live && after[k] == live[k])
  }

  ghost predicate Initialised(env: Env) {
    forall n :: env.answer(n) != NoQueue
  }

  ghost predicate AlwaysAccepts(env: Env) {
    forall n :: env.answer(n) == Accepted
  }

  predicate AllRejected(subs: seq<Submission>) {
    forall i :: 0 <= i < |subs| ==> subs[i].outcome == Rejected
  }

  predicate Wanted(pod: PodInfo, tracked: PodSet, live: PodSet) {
    pod.Id() in live && live[pod.Id()] == pod && pod.IsHealthy() && pod.Id() !in tracked
  }

  /** `pods` may be added: distinct healthy live pods, none of them tracked. */
  ghost predicate Addable(pods: seq<PodInfo>, tracked: PodSet, live: PodSet) {
    && (forall i :: 0 <= i < |pods| ==> Wanted(pods[i], tracked, live))
    && (forall i, j :: 0 <= i < j < |pods| ==> pods[i].Id() != pods[j].Id())
  }

  /** `pods` may be dropped: distinct tracked pods, none of them live. */
  ghost predicate Droppable(pods: seq<PodInfo>, tracked: PodSet, live: PodSet) {
    && (forall i :: 0 <= i < |pods| ==> pods[i].Id() in tracked && pods[i].Id() !in live)
    && (forall i, j :: 0 <= i < j < |pods| ==> pods[i].Id() != pods[j].Id())
  }

  // ---------------------------------------------------------------- sizes

  lemma {:induction false} DistinctSize<T>(s: seq<T>, elements: set<T>)
    requires forall i, j :: 0 <= i < j < |s| ==> s[i] != s[j]
    requires forall x :: x in elements <==> x in s
    ensures |s| == |elements|
  {
    if s == [] {
      assert elements == {};
    } else {
      assert s == [s[0]] + s[1..];
      DistinctSize(s[1..], elements - {s[0]});
    }
  }

  lemma EnumerationSize(s: seq<PodInfo>, m: PodSet)
    requires Enumerates(s, m)
    ensures |s| == |m.Keys|
  {
    var ids := seq(|s|, i requires 0 <= i < |s| => s[i].Id());
    forall k | k in m.Keys
      ensures k in ids
    {
      var i :| 0 <= i < |s| && s[i] == m[k];
      assert ids[i] == k;
    }
    DistinctSize(ids, m.Keys);
  }

  lemma BetweenNarrows<T>(b: set<T>, a: set<T>, l: set<T>, h: set<T>)
    requires h <= l && b * l <= a <= b + h
    ensures |a - l| + |h - a| <= |b - l| + |h - b|
    ensures |a - l| + |h - a| == |b - l| + |h - b| ==> a == b
  {
    assert a - l <= b - l && h - a <= h - b;
    SubsetSize(a - l, b - l);
    SubsetSize(h - a, h - b);
    if |a - l| + |h - a| == |b - l| + |h - b| {
      assert a - l == b - l && h - a == h - b;
      assert forall x :: x in a ==> x in b by {
        assert forall x :: x in a && x in h ==> x !in h - a;
      }
      assert forall x :: x in b ==> x in a by {
        assert forall x :: x in b && x !in l ==> x in b - l;
      }
    }
  }

  lemma KeysNarrowGap(before: PodSet, after: PodSet, live: PodSet)
    requires before.Keys * live.Keys <= after.Keys <= before.Keys + HealthyIds(live)
    ensures Gap(after, live) <= Gap(before, live)
    ensures Gap(after, live) == Gap(before, live) ==> after.Keys == before.Keys
  {
    var healthy := HealthyIds(live);
    assert healthy <= live.Keys;
    BetweenNarrows(before.Keys, after.Keys, live.Keys, healthy);
  }

  /** Getting closer never widens the gap, and keeps it only by tracking the very same pods. */
  lemma CloserNarrowsGap(before: PodSet, after: PodSet, live: PodSet)
    requires Closer(before, after, live)
    ensures Gap(after, live) <= Gap(before, live)
    ensures Gap(after, live) == Gap(before, live) <==> after == before
  {
    KeysNarrowGap(before, after, live);
  }

  lemma CloserTransitive(a: PodSet, b: PodSet, c: PodSet, live: PodSet)
    requires Closer(a, b, live) && Closer(b, c, live)
    ensures Closer(a, c, live)
  {
  }

  // ---------------------------------------------------------------- single steps

  lemma DropStep(env: Env, st: State, pod: PodInfo, live: PodSet)
    requires pod.Id() in st.tracked && pod.Id() !in live
    ensures var next := DropStale(env, st, pod);
            && Closer(st.tracked, next.tracked, live)
            && st.log <= next.log && |next.log| == |st.log| + 1
            && next.tracked.Keys
                == (if Answered(next) == Accepted then st.tracked.Keys - {pod.Id()} else st.tracked.Keys)
  {
  }

  lemma EvictedNotLive(tracked: PodSet, live: PodSet, pod: PodInfo, k: PodId)
    requires UniqueNames(live) && pod.Id() in live && IsRestartOf(k, pod)
    ensures k !in live
  {
  }

  /** The tracked pods that an added pod leaves in place. */
  ghost function Spared(tracked: PodSet, pod: PodInfo): PodSet {
    var prior := Evicted(tracked, pod);
    if prior.Some? then tracked - {prior.value} else tracked
  }

  /** How many jobs precede the addition of a pod: the removal of its predecessor, if one is tracked. */
  ghost function Removals(tracked: PodSet, pod: PodInfo): nat {
    if Evicted(tracked, pod).Some? then 1 else 0
  }

  lemma SparedCloser(tracked: PodSet, pod: PodInfo, live: PodSet)
    requires UniqueNames(live) && Wanted(pod, tracked, live)
    ensures Closer(tracked, Spared(tracked, pod), live) && Closer(tracked, Spared(tracked, pod)[pod.Id() := pod], live)
  {
    var prior := Evicted(tracked, pod);
    if prior.Some? {
      EvictedNotLive(tracked, live, pod, prior.value);
    }
  }

  /** What adding a pod submits. */
  lemma AddStepLog(env: Env, st: State, pod: PodInfo)
    requires pod.IsHealthy() && pod.Id() !in st.tracked
    ensures var next := HandleEvent(env, st, pod);
            && st.log <= next.log && |next.log| == |st.log| + Removals(st.tracked, pod) + 1
            && Answered(next) == env.answer(|st.log| + Removals(st.tracked, pod))
  {
  }

  /** Adding a pod tracks it exactly if it is not rejected, and evicts at most its predecessor. */
  lemma AddStepTracked(env: Env, st: State, pod: PodInfo)
    requires pod.IsHealthy() && pod.Id() !in st.tracked
    ensures var next, spared := HandleEvent(env, st, pod), Spared(st.tracked, pod);
            var rejected := env.answer(|st.log| + Removals(st.tracked, pod)) == Rejected;
            next.tracked == if rejected then spared else spared[pod.Id() := pod]
  {
    AddStepLog(env, st, pod);
    var spared := Spared(st.tracked, pod);
    assert spared[pod.Id() := pod] - {pod.Id()} == spared;
  }

  /** Adding a wanted pod gets closer, and keeps the tracked set only by a rejected addition without eviction. */
  lemma AddStep(env: Env, st: State, pod: PodInfo, live: PodSet)
    requires UniqueNames(live) && Wanted(pod, st.tracked, live) && Initialised(env)
    ensures var next := HandleEvent(env, st, pod);
            && Closer(st.tracked, next.tracked, live)
            && (pod.Id() in next.tracked <==> env.answer(|st.log| + Removals(st.tracked, pod)) == Accepted)
            && next.tracked.Keys <= st.tracked.Keys + {pod.Id()}
  {
    AddStepTracked(env, st, pod);
    SparedCloser(st.tracked, pod, live);
  }

  // ---------------------------------------------------------------- progress under failures

  /** A run's new submissions are those of its first part followed by those of its second. */
  lemma SplitSuffix(start: seq<Submission>, mid: seq<Submission>, end: seq<Submission>)
    requires start <= mid <= end
    ensures AllRejected(end[|start|..]) <==> AllRejected(mid[|start|..]) && AllRejected(end[|mid|..])
  {
    var a, b := mid[|start|..], end[|mid|..];
    assert end[|start|..] == a + b;
    assert forall i :: 0 <= i < |a| ==> a[i] == (a + b)[i];
    assert forall i :: 0 <= i < |b| ==> b[i] == (a + b)[|a| + i];
  }

  /** One dropped pod and then others: nothing was dropped exactly if every removal was rejected. */
  lemma DropsCompose(st: State, mid: State, end: State, live: PodSet)
    requires Closer(st.tracked, mid.tracked, live) && Closer(mid.tracked, end.tracked, live)
    requires st.log <= mid.log <= end.log && |mid.log| == |st.log| + 1
    requires Answered(mid) == Rejected <==> mid.tracked == st.tracked
    requires AllRejected(end.log[|mid.log|..]) <==> end.tracked == mid.tracked
    ensures Closer(st.tracked, end.tracked, live)
    ensures AllRejected(end.log[|st.log|..]) <==> end.tracked == st.tracked
  {
    CloserTransitive(st.tracked, mid.tracked, end.tracked, live);
    SplitSuffix(st.log, mid.log, end.log);
    assert mid.log[|st.log|..] == [mid.log[|st.log|]];
    SameOnlyIfStill(st.tracked, mid.tracked, end.tracked, live);
  }

  lemma {:induction false} DropAllProgress(env: Env, st: State, stale: seq<PodInfo>, live: PodSet)
    requires Droppable(stale, st.tracked, live) && Initialised(env)
    ensures var end := DropAll(env, st, stale);
            && Closer(st.tracked, end.tracked, live) && end.tracked.Keys <= st.tracked.Keys
            && st.log <= end.log && |end.log| == |st.log| + |stale|
            && (AllRejected(end.log[|st.log|..]) <==> end.tracked == st.tracked)
    decreases |stale|
  {
    if stale == [] {
    } else {
      var next := DropStale(env, st, stale[0]);
      DropStep(env, st, stale[0], live);
      DropAllProgress(env, next, stale[1..], live);
      DropsCompose(st, next, DropAll(env, st, stale), live);
    }
  }

  /** The submissions of the additions are all rejected, and there are no others. */
  predicate Fruitless(start: seq<Submission>, end: seq<Submission>, jobs: nat) {
    start <= end && |end| == |start| + jobs && AllRejected(end[|start|..])
  }

  lemma {:induction false} AddAllProgress(env: Env, st: State, missing: seq<PodInfo>, live: PodSet)
    requires UniqueNames(live) && Addable(missing, st.tracked, live) && Initialised(env)
    ensures var end := AddAll(env, st, missing);
            && Closer(st.tracked, end.tracked, live)
            && st.log <= end.log && |end.log| >= |st.log| + |missing|
            && (Fruitless(st.log, end.log, |missing|) <==> end.tracked == st.tracked)
    decreases |missing|
  {
    if missing == [] {
    } else {
      var next := HandleEvent(env, st, missing[0]);
      AddStep(env, st, missing[0], live);
      AddStepLog(env, st, missing[0]);
      AddableRest(env, st, missing, live);
      AddAllProgress(env, next, missing[1..], live);
      FirstAddFruitless(env, st, missing[0], live);
      ProgressComposes(st, next, AddAll(env, st, missing), live, |missing| - 1);
    }
  }

  /** Two stretches of progress, the first with one job at least, make one. */
  lemma ProgressComposes(st: State, mid: State, end: State, live: PodSet, jobs: nat)
    requires Closer(st.tracked, mid.tracked, live) && Closer(mid.tracked, end.tracked, live)
    requires st.log <= mid.log <= end.log && |mid.log| >= |st.log| + 1 && |end.log| >= |mid.log| + jobs
    requires Fruitless(st.log, mid.log, 1) <==> mid.tracked == st.tracked
    requires Fruitless(mid.log, end.log, jobs) <==> end.tracked == mid.tracked
    ensures Closer(st.tracked, end.tracked, live)
    ensures Fruitless(st.log, end.log, 1 + jobs) <==> end.tracked == st.tracked
  {
    CloserTransitive(st.tracked, mid.tracked, end.tracked, live);
    SplitSuffix(st.log, mid.log, end.log);
    SameOnlyIfStill(st.tracked, mid.tracked, end.tracked, live);
  }

  /** Closer and closer and back where one was: nothing has moved. */
  lemma SameOnlyIfStill(a: PodSet, b: PodSet, c: PodSet, live: PodSet)
    requires Closer(a, b, live) && Closer(b, c, live)
    ensures c == a <==> b == a && c == b
  {
    CloserNarrowsGap(a, b, live);
    CloserNarrowsGap(b, c, live);
  }

  lemma AddableRest(env: Env, st: State, missing: seq<PodInfo>, live: PodSet)
    requires UniqueNames(live) && Addable(missing, st.tracked, live) && Initialised(env) && missing != []
    ensures Addable(missing[1..], HandleEvent(env, st, missing[0]).tracked, live)
  {
    AddStep(env, st, missing[0], live);
  }

  lemma FirstAddFruitless(env: Env, st: State, pod: PodInfo, live: PodSet)
    requires UniqueNames(live) && Wanted(pod, st.tracked, live) && Initialised(env)
    ensures Fruitless(st.log, HandleEvent(env, st, pod).log, 1) <==> HandleEvent(env, st, pod).tracked == st.tracked
  {
    var next := HandleEvent(env, st, pod);
    AddStepLog(env, st, pod);
    AddStepTracked(env, st, pod);
    if |next.log| == |st.log| + 1 {
      assert next.log[|st.log|..] == [next.log[|st.log|]];
    } else {
      var prior := Evicted(st.tracked, pod);
      assert prior.value in st.tracked && prior.value !in next.tracked;
    }
  }

  lemma DifferenceIds(tracked: PodSet, live: PodSet)
    ensures Stale(tracked, live).Keys == tracked.Keys - live.Keys
    ensures Missing(tracked, live).Keys == HealthyIds(live) - tracked.Keys
  {
  }

  lemma CycleInputs(tracked: PodSet, live: PodSet, stale: seq<PodInfo>, missing: seq<PodInfo>)
    requires Enumerates(stale, Stale(tracked, live)) && Enumerates(missing, Missing(tracked, live))
    ensures Droppable(stale, tracked, live) && Addable(missing, tracked, live)
    ensures |stale| + |missing| == Gap(tracked, live)
  {
    DifferenceIds(tracked, live);
    assert |stale| == |tracked.Keys - live.Keys| by {
      EnumerationSize(stale, Stale(tracked, live));
    }
    assert |missing| == |HealthyIds(live) - tracked.Keys| by {
      EnumerationSize(missing, Missing(tracked, live));
    }
  }

  /**
   * Progress under arbitrary submission failures. No live tracked pod is dropped, nothing becomes newly
   * stale or missing, and the gap stays as it was exactly when nothing was evicted and every submission
   * of the cycle was rejected; otherwise it falls. It is zero exactly at the early "consistent" return.
   */
  lemma CycleProgress(env: Env, st: State, live: PodSet, stale: seq<PodInfo>, missing: seq<PodInfo>)
    requires Initialised(env) && UniqueNames(live)
    requires Enumerates(stale, Stale(st.tracked, live)) && Enumerates(missing, Missing(st.tracked, live))
    ensures var end := Reconcile(env, st, stale, missing);
            && st.log <= end.log
            && Closer(st.tracked, end.tracked, live)
            && Gap(end.tracked, live) <= Gap(st.tracked, live)
            && (Gap(end.tracked, live) == Gap(st.tracked, live) <==> Fruitless(st.log, end.log, |stale| + |missing|))
    ensures Gap(st.tracked, live) == 0 <==> stale == [] && missing == []
  {
    CycleInputs(st.tracked, live, stale, missing);
    var mid := DropAll(env, st, stale);
    var end := AddAll(env, mid, missing);
    DropAllProgress(env, st, stale, live);
    AddAllProgress(env, mid, missing, live);
    CloserTransitive(st.tracked, mid.tracked, end.tracked, live);
    SplitSuffix(st.log, mid.log, end.log);
    CloserNarrowsGap(st.tracked, mid.tracked, live);
    CloserNarrowsGap(mid.tracked, end.tracked, live);
    CloserNarrowsGap(st.tracked, end.tracked, live);
  }

  // ---------------------------------------------------------------- convergence in bounded many cycles

  datatype Cycle = Cycle(stale: seq<PodInfo>, missing: seq<PodInfo>)

  ghost function RunCycle(env: Env, st: State, c: Cycle): State {
    Reconcile(env, st, c.stale, c.missing)
  }

  /** Each cycle works off the differences it finds, and if there are any, gets some submission accepted. */
  ghost predicate Productive(env: Env, st: State, live: PodSet, cycles: seq<Cycle>)
    decreases |cycles|
  {
    cycles != [] ==>
      var c := cycles[0];
      var next := RunCycle(env, st, c);
      && Enumerates(c.stale, Stale(st.tracked, live)) && Enumerates(c.missing, Missing(st.tracked, live))
      && (Gap(st.tracked, live) > 0 ==> !Fruitless(st.log, next.log, |c.stale| + |c.missing|))
      && Productive(env, next, live, cycles[1..])
  }

  ghost function RunCycles(env: Env, st: State, cycles: seq<Cycle>): State
    decreases |cycles|
  {
    if cycles == [] then st else RunCycles(env, RunCycle(env, st, cycles[0]), cycles[1..])
  }

  /** Against a steady cluster, as many productive cycles as the gap is wide close it. */
  lemma {:induction false} BoundedConvergence(env: Env, st: State, live: PodSet, cycles: seq<Cycle>)
    requires Initialised(env) && UniqueNames(live)
    requires Productive(env, st, live, cycles)
    ensures Gap(RunCycles(env, st, cycles).tracked, live)
            <= if Gap(st.tracked, live) <= |cycles| then 0 else Gap(st.tracked, live) - |cycles|
    decreases |cycles|
  {
    if cycles == [] {
    } else {
      CycleProgress(env, st, live, cycles[0].stale, cycles[0].missing);
      BoundedConvergence(env, RunCycle(env, st, cycles[0]), live, cycles[1..]);
    }
  }

  // ---------------------------------------------------------------- self-stabilisation

  function DropJobs(env: Env, stale: seq<PodInfo>): seq<Submission> {
    if stale == [] then []
    else [Submission(RemoveWorker(stale[0].WorkerUrl(env.port)), Accepted)] + DropJobs(env, stale[1..])
  }

  function AddJobs(env: Env, missing: seq<PodInfo>): seq<Submission> {
    if missing == [] then []
    else [Submission(AddWorker(SpecOf(env, missing[0])), Accepted)] + AddJobs(env, missing[1..])
  }

  function Ids(pods: seq<PodInfo>): set<PodId> {
    if pods == [] then {} else {pods[0].Id()} + Ids(pods[1..])
  }

  function InsertAll(tracked: PodSet, pods: seq<PodInfo>): PodSet
    decreases |pods|
  {
    if pods == [] then tracked else InsertAll(tracked[pods[0].Id() := pods[0]], pods[1..])
  }

  lemma {:induction false} DropAllAccepted(env: Env, st: State, stale: seq<PodInfo>)
    requires AlwaysAccepts(env)
    ensures DropAll(env, st, stale) == State(st.tracked - Ids(stale), st.log + DropJobs(env, stale))
    decreases |stale|
  {
    if stale == [] {
      assert st.tracked - {} == st.tracked;
    } else {
      var next := DropStale(env, st, stale[0]);
      DropAllAccepted(env, next, stale[1..]);
      assert next.tracked - Ids(stale[1..]) == st.tracked - Ids(stale);
      assert next.log + DropJobs(env, stale[1..]) == st.log + DropJobs(env, stale);
    }
  }

  lemma AddOneAccepted(env: Env, st: State, pod: PodInfo, live: PodSet)
    requires AlwaysAccepts(env) && UniqueNames(live) && st.tracked.Keys <= live.Keys && Wanted(pod, st.tracked, live)
    ensures HandleEvent(env, st, pod)
            == State(st.tracked[pod.Id() := pod], st.log + [Submission(AddWorker(SpecOf(env, pod)), Accepted)])
  {
    assert Evicted(st.tracked, pod) == None;
  }

  lemma AddableInserted(tracked: PodSet, missing: seq<PodInfo>, live: PodSet)
    requires Addable(missing, tracked, live) && missing != []
    ensures Addable(missing[1..], tracked[missing[0].Id() := missing[0]], live)
  {
  }

  /** With no failures and nobody of the same name tracked, adding is plain insertion. */
  lemma {:induction false} AddAllAccepted(env: Env, st: State, missing: seq<PodInfo>, live: PodSet)
    requires AlwaysAccepts(env) && UniqueNames(live)
    requires st.tracked.Keys <= live.Keys && Addable(missing, st.tracked, live)
    ensures AddAll(env, st, missing) == State(InsertAll(st.tracked, missing), st.log + AddJobs(env, missing))
    decreases |missing|
  {
    if missing == [] {
    } else {
      var job := [Submission(AddWorker(SpecOf(env, missing[0])), Accepted)];
      var next := State(st.tracked[missing[0].Id() := missing[0]], st.log + job);
      AddOneAccepted(env, st, missing[0], live);
      AddableInserted(st.tracked, missing, live);
      AddAllAccepted(env, next, missing[1..], live);
      Regroup(st.log, job, AddJobs(env, missing[1..]));
    }
  }

  lemma {:induction false} AddAllCounted(env: Env, st: State, missing: seq<PodInfo>, live: PodSet)
    requires AlwaysAccepts(env) && UniqueNames(live)
    requires st.tracked.Keys <= live.Keys && Addable(missing, st.tracked, live)
    ensures AddedCount(env, st, missing) == |missing|
    decreases |missing|
  {
    if missing == [] {
    } else {
      var next := HandleEvent(env, st, missing[0]);
      AddOneAccepted(env, st, missing[0], live);
      InsertGrows(st.tracked, missing[0]);
      AddableRest(env, st, missing, live);
      AddAllCounted(env, next, missing[1..], live);
    }
  }

  lemma InsertGrows(tracked: PodSet, pod: PodInfo)
    requires pod.Id() !in tracked
    ensures |tracked[pod.Id() := pod]| == |tracked| + 1
  {
    assert tracked[pod.Id() := pod].Keys == tracked.Keys + {pod.Id()};
  }

  lemma {:induction false} InsertAllContents(tracked: PodSet, missing: seq<PodInfo>, live: PodSet)
    requires Addable(missing, tracked, live)
    ensures InsertAll(tracked, missing).Keys == tracked.Keys + Ids(missing)
    ensures forall k :: k in InsertAll(tracked, missing) ==>
              if k in tracked then InsertAll(tracked, missing)[k] == tracked[k]
              else k in live && InsertAll(tracked, missing)[k] == live[k]
    decreases |missing|
  {
    if missing == [] {
    } else {
      InsertAllContents(tracked[missing[0].Id() := missing[0]], missing[1..], live);
    }
  }

  lemma {:induction false} IdsMembership(s: seq<PodInfo>, k: PodId)
    ensures k in Ids(s) <==> exists i :: 0 <= i < |s| && s[i].Id() == k
  {
    if s == [] {
    } else {
      IdsMembership(s[1..], k);
      assert forall i :: 0 < i < |s| ==> s[i] == s[1..][i - 1];
    }
  }

  lemma EnumeratedIds(s: seq<PodInfo>, m: PodSet)
    requires Enumerates(s, m)
    ensures Ids(s) == m.Keys
  {
    forall k
      ensures k in Ids(s) <==> k in m
    {
      IdsMembership(s, k);
      if k in m {
        assert m[k] in s;
      }
    }
  }

  /**
   * Self-stabilisation: whatever is tracked, one failure-free cycle leaves exactly the live pods that were
   * tracked or are healthy, by exactly one removal per stale and one addition per missing pod, no eviction,
   * and counts every missing pod as added.
   */
  lemma SelfStabilises(env: Env, st: State, live: PodSet, stale: seq<PodInfo>, missing: seq<PodInfo>)
    requires AlwaysAccepts(env) && UniqueNames(live)
    requires Enumerates(stale, Stale(st.tracked, live)) && Enumerates(missing, Missing(st.tracked, live))
    ensures var end := Reconcile(env, st, stale, missing);
            && end.tracked.Keys == live.Keys * (st.tracked.Keys + HealthyIds(live))
            && (forall k :: k in end.tracked ==> end.tracked[k] == if k in st.tracked then st.tracked[k] else live[k])
            && end.log == st.log + DropJobs(env, stale) + AddJobs(env, missing)
    ensures AddedCount(env, DropAll(env, st, stale), missing) == |missing|
    ensures Gap(Reconcile(env, st, stale, missing).tracked, live) == 0
  {
    CycleInputs(st.tracked, live, stale, missing);
    DropAllAccepted(env, st, stale);
    var mid := DropAll(env, st, stale);
    KeysAfterDrop(st.tracked, live, stale);
    AddAllAccepted(env, mid, missing, live);
    AddAllCounted(env, mid, missing, live);
    KeysAfterAdd(st.tracked, live, stale, missing);
  }

  lemma KeysAfterDrop(tracked: PodSet, live: PodSet, stale: seq<PodInfo>)
    requires Enumerates(stale, Stale(tracked, live))
    ensures (tracked - Ids(stale)).Keys == tracked.Keys * live.Keys
  {
    DifferenceIds(tracked, live);
    EnumeratedIds(stale, Stale(tracked, live));
  }

  lemma KeysAfterAdd(tracked: PodSet, live: PodSet, stale: seq<PodInfo>, missing: seq<PodInfo>)
    requires Enumerates(stale, Stale(tracked, live)) && Enumerates(missing, Missing(tracked, live))
    ensures var end := InsertAll(tracked - Ids(stale), missing);
            && end.Keys == live.Keys * (tracked.Keys + HealthyIds(live))
            && (forall k :: k in end ==> end[k] == if k in tracked then tracked[k] else live[k])
            && Gap(end, live) == 0
  {
    KeysAfterDrop(tracked, live, stale);
    KeysAfterInsert(tracked, tracked - Ids(stale), live, missing);
  }

  lemma KeysAfterInsert(tracked: PodSet, mid: PodSet, live: PodSet, missing: seq<PodInfo>)
    requires Enumerates(missing, Missing(tracked, live))
    requires mid.Keys == tracked.Keys * live.Keys && forall k :: k in mid ==> mid[k] == tracked[k]
    ensures var end := InsertAll(mid, missing);
            && end.Keys == live.Keys * (tracked.Keys + HealthyIds(live))
            && (forall k :: k in end ==> end[k] == if k in tracked then tracked[k] else live[k])
            && Gap(end, live) == 0
  {
    var end := InsertAll(mid, missing);
    InsertAllContents(mid, missing, live);
    assert end.Keys == live.Keys * (tracked.Keys + HealthyIds(live)) by {
      DifferenceIds(tracked, live);
      EnumeratedIds(missing, Missing(tracked, live));
    }
    NothingLeft(tracked, end, live);
  }

  lemma NothingLeft(tracked: PodSet, end: PodSet, live: PodSet)
    requires end.Keys == live.Keys * (tracked.Keys + HealthyIds(live))
    ensures Gap(end, live) == 0
  {
    assert end.Keys - live.Keys == {} && HealthyIds(live) - end.Keys == {};
  }

  /** The cycle after a successful one finds nothing to do and submits nothing. */
  lemma SecondCycleSilent(env: Env, st: State, live: PodSet, first: Cycle, second: Cycle)
    requires AlwaysAccepts(env) && UniqueNames(live)
    requires Enumerates(first.stale, Stale(st.tracked, live)) && Enumerates(first.missing, Missing(st.tracked, live))
    requires var mid := RunCycle(env, st, first);
             && Enumerates(second.stale, Stale(mid.tracked, live))
             && Enumerates(second.missing, Missing(mid.tracked, live))
    ensures RunCycle(env, RunCycle(env, st, first), second) == RunCycle(env, st, first)
  {
    SelfStabilises(env, st, live, first.stale, first.missing);
    CycleInputs(RunCycle(env, st, first).tracked, live, second.stale, second.missing);
  }

  // ---------------------------------------------------------------- what "added" counts

  predicate NamesakeTracked(tracked: PodSet, k: PodId) {
    exists o :: o in tracked && o.name == k.name && o != k
  }

  /** The wanted pods that ended up tracked without taking the place of a namesake. */
  ghost function AddedWithoutReplacing(before: PodSet, after: PodSet, wanted: set<PodId>): set<PodId> {
    set k | k in wanted && k in after && !NamesakeTracked(before, k)
  }

  lemma {:induction false} AddAllBounds(env: Env, st: State, missing: seq<PodInfo>, live: PodSet)
    requires UniqueNames(live) && Addable(missing, st.tracked, live) && Initialised(env)
    ensures AddAll(env, st, missing).tracked.Keys <= st.tracked.Keys + Ids(missing)
    decreases |missing|
  {
    if missing == [] {
    } else {
      AddStep(env, st, missing[0], live);
      AddableRest(env, st, missing, live);
      AddAllBounds(env, HandleEvent(env, st, missing[0]), missing[1..], live);
    }
  }

  lemma RemovalsIff(tracked: PodSet, pod: PodInfo)
    ensures Removals(tracked, pod) == if NamesakeTracked(tracked, pod.Id()) then 1 else 0
  {
    assert forall o :: o in tracked ==> (IsRestartOf(o, pod) <==> o.name == pod.name && o != pod.Id());
  }

  /** Adding one pod leaves the namesakes of all other live names as they were. */
  lemma NamesakesKept(env: Env, st: State, pod: PodInfo, live: PodSet, k: PodId)
    requires UniqueNames(live) && Wanted(pod, st.tracked, live) && Initialised(env)
    requires k in live && k != pod.Id()
    ensures NamesakeTracked(HandleEvent(env, st, pod).tracked, k) <==> NamesakeTracked(st.tracked, k)
  {
    var next := HandleEvent(env, st, pod);
    AddStepTracked(env, st, pod);
    assert k.name != pod.name;
    assert forall o: PodId :: o.name == k.name ==> (o in next.tracked <==> o in st.tracked);
  }

  lemma AddStepCounts(env: Env, st: State, pod: PodInfo, live: PodSet)
    requires UniqueNames(live) && Wanted(pod, st.tracked, live) && Initialised(env)
    ensures var next := HandleEvent(env, st, pod);
            |next.tracked| > |st.tracked| <==> pod.Id() in next.tracked && !NamesakeTracked(st.tracked, pod.Id())
  {
    AddStepTracked(env, st, pod);
    RemovalsIff(st.tracked, pod);
    SparedSize(st.tracked, pod);
  }

  lemma SparedSize(tracked: PodSet, pod: PodInfo)
    requires pod.Id() !in tracked
    ensures |Spared(tracked, pod)| == |tracked| - Removals(tracked, pod)
    ensures |Spared(tracked, pod)[pod.Id() := pod]| == |Spared(tracked, pod)| + 1
  {
    var spared, prior := Spared(tracked, pod), Evicted(tracked, pod);
    if prior.Some? {
      assert tracked.Keys == spared.Keys + {prior.value};
    }
    InsertGrows(spared, pod);
    assert |tracked| == |tracked.Keys| && |spared| == |spared.Keys|;
  }

  lemma CountedSplit(before: PodSet, mid: PodSet, after: PodSet, id: PodId, rest: set<PodId>)
    requires id !in rest
    requires forall k :: k in rest ==> (NamesakeTracked(mid, k) <==> NamesakeTracked(before, k))
    ensures |AddedWithoutReplacing(before, after, {id} + rest)|
            == |AddedWithoutReplacing(mid, after, rest)| + if id in after && !NamesakeTracked(before, id) then 1 else 0
  {
    var counted := AddedWithoutReplacing(mid, after, rest);
    assert AddedWithoutReplacing(before, after, {id} + rest)
        == if id in after && !NamesakeTracked(before, id) then counted + {id} else counted;
  }

  lemma RestUnaffected(env: Env, st: State, missing: seq<PodInfo>, live: PodSet)
    requires UniqueNames(live) && Addable(missing, st.tracked, live) && Initialised(env) && missing != []
    ensures missing[0].Id() !in Ids(missing[1..])
    ensures forall k :: k in Ids(missing[1..]) ==>
              (NamesakeTracked(HandleEvent(env, st, missing[0]).tracked, k) <==> NamesakeTracked(st.tracked, k))
  {
    forall k | k in Ids(missing[1..])
      ensures k != missing[0].Id()
              && (NamesakeTracked(HandleEvent(env, st, missing[0]).tracked, k) <==> NamesakeTracked(st.tracked, k))
    {
      IdsMembership(missing[1..], k);
      NamesakesKept(env, st, missing[0], live, k);
    }
  }

  lemma FirstStaysOrNot(env: Env, st: State, missing: seq<PodInfo>, live: PodSet)
    requires UniqueNames(live) && Addable(missing, st.tracked, live) && Initialised(env) && missing != []
    ensures missing[0].Id() in AddAll(env, st, missing).tracked
            <==> missing[0].Id() in HandleEvent(env, st, missing[0]).tracked
  {
    var next := HandleEvent(env, st, missing[0]);
    AddableRest(env, st, missing, live);
    AddAllProgress(env, next, missing[1..], live);
    AddAllBounds(env, next, missing[1..], live);
    IdsMembership(missing[1..], missing[0].Id());
  }

  /**
   * The count logged after a cycle, exactly: it leaves out every pod that took the place of a namesake
   * whose removal had been rejected, although that pod was added.
   */
  lemma {:induction false} AddedCountExact(env: Env, st: State, missing: seq<PodInfo>, live: PodSet)
    requires UniqueNames(live) && Addable(missing, st.tracked, live) && Initialised(env)
    ensures AddedCount(env, st, missing) == |CountedIds(env, st, missing)|
    decreases |missing|
  {
    if missing == [] {
      assert AddedWithoutReplacing(st.tracked, st.tracked, {}) == {};
    } else {
      var next, end := HandleEvent(env, st, missing[0]), AddAll(env, st, missing);
      AddableRest(env, st, missing, live);
      AddStepCounts(env, st, missing[0], live);
      FirstStaysOrNot(env, st, missing, live);
      RestUnaffected(env, st, missing, live);
      AddedCountExact(env, next, missing[1..], live);
      CountedSplit(st.tracked, next.tracked, end.tracked, missing[0].Id(), Ids(missing[1..]));
    }
  }

  /** At which of the coming answers the addition of `missing[i]` is decided. */
  ghost function AddIndex(tracked: PodSet, missing: seq<PodInfo>, i: nat): nat
    requires i < |missing|
    decreases i
  {
    var before := if NamesakeTracked(tracked, missing[0].Id()) then 1 else 0;
    if i == 0 then before else before + 1 + AddIndex(tracked, missing[1..], i - 1)
  }

  lemma {:induction false} IndexKept(a: PodSet, b: PodSet, missing: seq<PodInfo>, i: nat)
    requires i < |missing| && forall k :: k in Ids(missing) ==> (NamesakeTracked(a, k) <==> NamesakeTracked(b, k))
    ensures AddIndex(a, missing, i) == AddIndex(b, missing, i)
    decreases i
  {
    IdsMembership(missing, missing[0].Id());
    if i == 0 {
    } else {
      IndexKept(a, b, missing[1..], i - 1);
    }
  }

  /** The pod `missing[i]` ends up tracked. */
  ghost predicate Adds(env: Env, st: State, missing: seq<PodInfo>, i: nat) {
    i < |missing| && missing[i].Id() in AddAll(env, st, missing).tracked
  }

  ghost predicate Accepts(env: Env, st: State, missing: seq<PodInfo>, i: nat) {
    i < |missing| && env.answer(|st.log| + AddIndex(st.tracked, missing, i)) == Accepted
  }

  lemma FirstIffAccepted(env: Env, st: State, missing: seq<PodInfo>, live: PodSet)
    requires UniqueNames(live) && Addable(missing, st.tracked, live) && Initialised(env) && missing != []
    ensures Adds(env, st, missing, 0) <==> Accepts(env, st, missing, 0)
  {
    RemovalsIff(st.tracked, missing[0]);
    FirstStaysOrNot(env, st, missing, live);
    AddStep(env, st, missing[0], live);
  }

  /** A later pod is added, and decided at the same answer, as seen from after the first. */
  lemma LaterAdds(env: Env, st: State, missing: seq<PodInfo>, i: nat)
    requires 0 < i < |missing|
    ensures Adds(env, st, missing, i) <==> Adds(env, HandleEvent(env, st, missing[0]), missing[1..], i - 1)
  {
    assert missing[1..][i - 1] == missing[i];
  }

  lemma LaterIndex(env: Env, st: State, next: State, missing: seq<PodInfo>, i: nat)
    requires 0 < i < |missing| && |next.log| == |st.log| + Removals(st.tracked, missing[0]) + 1
    requires forall k :: k in Ids(missing[1..]) ==>
            (NamesakeTracked(next.tracked, k) <==> NamesakeTracked(st.tracked, k))
    ensures Accepts(env, st, missing, i) <==> Accepts(env, next, missing[1..], i - 1)
  {
    RemovalsIff(st.tracked, missing[0]);
    IndexKept(next.tracked, st.tracked, missing[1..], i - 1);
  }

  /** A missing pod ends up tracked exactly if that answer accepts it. */
  lemma {:induction false} AddedIffAccepted(env: Env, st: State, missing: seq<PodInfo>, live: PodSet, i: nat)
    requires UniqueNames(live) && Addable(missing, st.tracked, live) && Initialised(env) && i < |missing|
    ensures Adds(env, st, missing, i) <==> Accepts(env, st, missing, i)
    decreases i
  {
    if i == 0 {
      FirstIffAccepted(env, st, missing, live);
    } else {
      var next := HandleEvent(env, st, missing[0]);
      AddableRest(env, st, missing, live);
      AddedIffAccepted(env, next, missing[1..], live, i - 1);
      LaterAdds(env, st, missing, i);
      AddStepLog(env, st, missing[0]);
      RestUnaffected(env, st, missing, live);
      LaterIndex(env, st, next, missing, i);
    }
  }

  /** A missing pod with a tracked namesake, whose addition the queue will accept. */
  ghost predicate Replaces(env: Env, st: State, missing: seq<PodInfo>, i: nat) {
    i < |missing| && NamesakeTracked(st.tracked, missing[i].Id()) && Accepts(env, st, missing, i)
  }

  lemma ReplacedNotCounted(env: Env, st: State, missing: seq<PodInfo>, live: PodSet, i: nat)
    requires UniqueNames(live) && Addable(missing, st.tracked, live) && Initialised(env)
            && Replaces(env, st, missing, i)
    ensures missing[i].Id() in AddedIds(env, st, missing) - CountedIds(env, st, missing)
  {
    AddedIffAccepted(env, st, missing, live, i);
    IdsMembership(missing, missing[i].Id());
  }

  lemma NotCountedReplaced(env: Env, st: State, missing: seq<PodInfo>, live: PodSet, k: PodId) returns (i: nat)
    requires UniqueNames(live) && Addable(missing, st.tracked, live) && Initialised(env)
    requires k in AddedIds(env, st, missing) - CountedIds(env, st, missing)
    ensures Replaces(env, st, missing, i)
  {
    IdsMembership(missing, k);
    i :| i < |missing| && missing[i].Id() == k;
    AddedIffAccepted(env, st, missing, live, i);
  }

  ghost function AddedIds(env: Env, st: State, missing: seq<PodInfo>): set<PodId> {
    Ids(missing) * AddAll(env, st, missing).tracked.Keys
  }

  ghost function CountedIds(env: Env, st: State, missing: seq<PodInfo>): set<PodId> {
    AddedWithoutReplacing(st.tracked, AddAll(env, st, missing).tracked, Ids(missing))
  }

  lemma SomeReplacedIff(env: Env, st: State, missing: seq<PodInfo>, live: PodSet)
    requires UniqueNames(live) && Addable(missing, st.tracked, live) && Initialised(env)
    ensures CountedIds(env, st, missing) <= AddedIds(env, st, missing)
    ensures CountedIds(env, st, missing) != AddedIds(env, st, missing)
            <==> exists i: nat :: Replaces(env, st, missing, i)
  {
    var added, counted := AddedIds(env, st, missing), CountedIds(env, st, missing);
    if i: nat :| Replaces(env, st, missing, i) {
      ReplacedNotCounted(env, st, missing, live, i);
    } else if added - counted != {} {
      var k :| k in added - counted;
      var i := NotCountedReplaced(env, st, missing, live, k);
    } else {
      NothingBetween(counted, added);
    }
  }

  lemma NothingBetween<T>(a: set<T>, b: set<T>)
    requires a <= b && b - a == {}
    ensures a == b
  {
    assert b == a + (b - a);
  }

  lemma SameSizeIff<T>(a: set<T>, b: set<T>)
    requires a <= b
    ensures |a| == |b| <==> a == b
  {
    SubsetSize(a, b);
  }

  /** So the count is the number of pods added exactly if no pod with a tracked namesake is accepted. */
  lemma AddedCountFaithful(env: Env, st: State, missing: seq<PodInfo>, live: PodSet)
    requires UniqueNames(live) && Addable(missing, st.tracked, live) && Initialised(env)
    ensures AddedCount(env, st, missing) == |AddedIds(env, st, missing)|
            <==> !exists i: nat :: Replaces(env, st, missing, i)
  {
    AddedCountExact(env, st, missing, live);
    SomeReplacedIff(env, st, missing, live);
    SameSizeIff(CountedIds(env, st, missing), AddedIds(env, st, missing));
  }

  /** The failing case: a restarted pod whose predecessor is still tracked is added, and not counted. */
  lemma ReplacementNotCounted(env: Env, st: State, pod: PodInfo, live: PodSet)
    requires UniqueNames(live) && Wanted(pod, st.tracked, live) && Initialised(env)
    requires NamesakeTracked(st.tracked, pod.Id()) && env.answer(|st.log| + 1) == Accepted
    ensures pod.Id() in AddAll(env, st, [pod]).tracked
    ensures AddedCount(env, st, [pod]) == 0
  {
    var next := HandleEvent(env, st, pod);
    AddStep(env, st, pod, live);
    AddStepCounts(env, st, pod, live);
    RemovalsIff(st.tracked, pod);
    assert [pod][1..] == [];
    assert AddAll(env, st, [pod]) == AddAll(env, next, []);
    assert AddedCount(env, next, []) == 0;
  }
}
