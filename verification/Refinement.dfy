/** The submitted jobs, replayed in order, against the tracked set: when the two say the same. */
module Refinement {
  import opened Text
  import opened Pods
  import opened Discovery

  /** The workers the queue's consumer ends up with, by URL. */
  type Registry = map<string, WorkerSpec>

  function ApplyJob(reg: Registry, s: Submission): Registry {
    if s.outcome != Accepted then reg
    else match s.job
      case AddWorker(spec) => reg[spec.url := spec]
      case RemoveWorker(url) => reg - {url}
  }

  function Registered(log: seq<Submission>): Registry {
    if log == [] then map[] else ApplyJob(Registered(log[..|log| - 1]), log[|log| - 1])
  }

  lemma RegisteredSnoc(log: seq<Submission>, s: Submission)
    ensures Registered(log + [s]) == ApplyJob(Registered(log), s)
  {
    assert (log + [s])[..|log|] == log;
  }

  function Specs(env: Env, tracked: PodSet): map<PodId, WorkerSpec> {
    map k | k in tracked :: SpecOf(env, tracked[k])
  }

  /** The registry holds exactly the wanted workers, each under its own URL. */
  ghost predicate Mirrors<K>(wanted: map<K, WorkerSpec>, reg: Registry) {
    && (forall k :: k in wanted ==> wanted[k].url in reg && reg[wanted[k].url] == wanted[k])
    && (forall u :: u in reg ==> exists k :: k in wanted && wanted[k].url == u)
  }

  /** The submitted jobs amount to exactly the workers of the tracked pods, as those pods describe them. */
  ghost predicate Refines(env: Env, st: State) {
    Mirrors(Specs(env, st.tracked), Registered(st.log))
  }

  predicate DistinctIps(tracked: PodSet) {
    forall a, b :: a in tracked && b in tracked && tracked[a].ip == tracked[b].ip ==> a == b
  }

  ghost predicate DistinctUrls<K(!new)>(wanted: map<K, WorkerSpec>) {
    forall a, b :: a in wanted && b in wanted && wanted[a].url == wanted[b].url ==> a == b
  }

  lemma IpsGiveUrls(env: Env, tracked: PodSet)
    requires DistinctIps(tracked)
    ensures DistinctUrls(Specs(env, tracked))
  {
    forall a, b | a in tracked && b in tracked && SpecOf(env, tracked[a]).url == SpecOf(env, tracked[b]).url
      ensures a == b
    {
      WorkerUrlInjective(tracked[a], tracked[b], env.port);
    }
  }

  // ---------------------------------------------------------------- one change at a time

  lemma RemoveBoth<K(!new)>(wanted: map<K, WorkerSpec>, reg: Registry, k: K, url: string)
    requires Mirrors(wanted, reg) && DistinctUrls(wanted) && k in wanted
    ensures Mirrors(wanted - {k}, reg - {url}) <==> url == wanted[k].url
    ensures !Mirrors(wanted - {k}, reg)
  {
    assert wanted[k].url in reg;
    if url == wanted[k].url {
      forall u | u in reg - {url}
        ensures exists j :: j in wanted - {k} && (wanted - {k})[j].url == u
      {
        var j :| j in wanted && wanted[j].url == u;
        assert j in wanted - {k};
      }
    } else {
      assert wanted[k].url in reg - {url};
    }
  }

  lemma AddBoth<K(!new)>(wanted: map<K, WorkerSpec>, reg: Registry, k: K, spec: WorkerSpec)
    requires Mirrors(wanted, reg) && k !in wanted && DistinctUrls(wanted[k := spec])
    ensures Mirrors(wanted[k := spec], reg[spec.url := spec])
    ensures !Mirrors(wanted[k := spec], reg)
  {
    var w, r := wanted[k := spec], reg[spec.url := spec];
    assert forall j :: j in wanted ==> j in w && w[j] == wanted[j] && w[j].url != w[k].url;
    forall u | u in r
      ensures exists j :: j in w && w[j].url == u
    {
      if u == spec.url {
        assert w[k].url == u;
      } else {
        var j :| j in wanted && wanted[j].url == u;
        assert j in w;
      }
    }
    assert spec.url !in reg;
  }

  /** One worker takes the place of another that was not removed. */
  lemma TakeOver<K(!new)>(wanted: map<K, WorkerSpec>, reg: Registry, k: K, k': K, spec: WorkerSpec)
    requires Mirrors(wanted, reg) && DistinctUrls(wanted) && k in wanted && k' !in wanted
    requires DistinctUrls((wanted - {k})[k' := spec])
    ensures Mirrors((wanted - {k})[k' := spec], reg[spec.url := spec]) <==> spec.url == wanted[k].url
    ensures Mirrors((wanted - {k})[k' := spec], reg) <==> spec == wanted[k]
  {
    var w, r := (wanted - {k})[k' := spec], reg[spec.url := spec];
    assert w[k'] == spec;
    assert forall j :: j in wanted && j != k ==> j in w && w[j] == wanted[j] && w[j].url != w[k'].url;
    assert wanted[k].url in reg && wanted[k].url in r;
    if spec.url == wanted[k].url {
      forall u | u in reg
        ensures exists j :: j in w && w[j].url == u
      {
        var j :| j in wanted && wanted[j].url == u;
        assert if j == k then w[k'].url == u else j in w && w[j].url == u;
      }
      assert r.Keys == reg.Keys;
    }
  }

  /** A removal answered by `a`, then an addition answered by `b` and undone if rejected. */
  lemma RestartMirrorsIff<K(!new)>(wanted: map<K, WorkerSpec>, reg: Registry, k: K, k': K, spec: WorkerSpec,
                                   a: Outcome, b: Outcome)
    requires Mirrors(wanted, reg) && DistinctUrls(wanted) && k in wanted && k' !in wanted
    requires b != Rejected ==> DistinctUrls((wanted - {k})[k' := spec])
    ensures Mirrors(if b == Rejected then wanted - {k} else (wanted - {k})[k' := spec],
                    ApplyJob(ApplyJob(reg, Submission(RemoveWorker(wanted[k].url), a)), Submission(AddWorker(spec), b)))
            <==> if a == Accepted then b != NoQueue
                 else (b == Accepted && spec.url == wanted[k].url) || (b == NoQueue && spec == wanted[k])
  {
    RemoveBoth(wanted, reg, k, wanted[k].url);
    if b != Rejected {
      if a == Accepted {
        AddBoth(wanted - {k}, reg - {wanted[k].url}, k', spec);
      } else {
        TakeOver(wanted, reg, k, k', spec);
      }
    }
  }

  // ---------------------------------------------------------------- one handler

  datatype Micro = Event(pod: PodInfo) | Delete(pod: PodInfo) | Drop(pod: PodInfo)

  ghost function Step(env: Env, st: State, m: Micro): State {
    match m
    case Event(p) => HandleEvent(env, st, p)
    case Delete(p) => HandleDeletion(env, st, p)
    case Drop(p) => DropStale(env, st, p)
  }

  /** Checkable before the call, given the queue's coming answers: the step keeps jobs and tracking in step. */
  ghost predicate Safe(env: Env, st: State, m: Micro) {
    var n := |st.log|;
    match m
    case Event(p) =>
      p.IsHealthy() && p.Id() !in st.tracked ==>
        var prior := Evicted(st.tracked, p);
        if prior.None? then env.answer(n) != NoQueue
        else if env.answer(n) == Accepted then env.answer(n + 1) != NoQueue
        else
          || (env.answer(n + 1) == Accepted && p.ip == st.tracked[prior.value].ip)
          || (env.answer(n + 1) == NoQueue && SpecOf(env, p) == SpecOf(env, st.tracked[prior.value]))
    case Delete(p) =>
      p.Id() in st.tracked ==> env.answer(n) == Accepted && p.ip == st.tracked[p.Id()].ip
    case Drop(_) => true
  }

  ghost predicate DropsTracked(st: State, m: Micro) {
    m.Drop? ==> m.pod.Id() in st.tracked && st.tracked[m.pod.Id()] == m.pod
  }

  lemma SpecsWithout(env: Env, tracked: PodSet, id: PodId)
    ensures Specs(env, tracked - {id}) == Specs(env, tracked) - {id}
  {
  }

  lemma SpecsWith(env: Env, tracked: PodSet, pod: PodInfo)
    ensures Specs(env, tracked[pod.Id() := pod]) == Specs(env, tracked)[pod.Id() := SpecOf(env, pod)]
  {
  }

  lemma DeleteRefinesIff(env: Env, st: State, p: PodInfo)
    requires Refines(env, st) && DistinctIps(st.tracked)
    ensures Refines(env, HandleDeletion(env, st, p)) <==> Safe(env, st, Delete(p))
  {
    if p.Id() in st.tracked {
      IpsGiveUrls(env, st.tracked);
      WorkerUrlInjective(p, st.tracked[p.Id()], env.port);
      RemoveBoth(Specs(env, st.tracked), Registered(st.log), p.Id(), p.WorkerUrl(env.port));
      SpecsWithout(env, st.tracked, p.Id());
      RegisteredSnoc(st.log, Submission(RemoveWorker(p.WorkerUrl(env.port)), env.answer(|st.log|)));
    }
  }

  lemma DropRefines(env: Env, st: State, p: PodInfo)
    requires Refines(env, st) && DistinctIps(st.tracked) && DropsTracked(st, Drop(p))
    ensures Refines(env, DropStale(env, st, p))
  {
    IpsGiveUrls(env, st.tracked);
    RemoveBoth(Specs(env, st.tracked), Registered(st.log), p.Id(), p.WorkerUrl(env.port));
    SpecsWithout(env, st.tracked, p.Id());
    RegisteredSnoc(st.log, Submission(RemoveWorker(p.WorkerUrl(env.port)), env.answer(|st.log|)));
  }

  lemma PlainAddTracked(env: Env, st: State, p: PodInfo)
    requires p.IsHealthy() && p.Id() !in st.tracked && Evicted(st.tracked, p).None?
    ensures var next := HandleEvent(env, st, p);
            next.tracked == if env.answer(|st.log|) == Rejected then st.tracked else st.tracked[p.Id() := p]
  {
    assert st.tracked[p.Id() := p] - {p.Id()} == st.tracked;
  }

  /** A healthy untracked pod with no namesake: the step fails only if there is no queue to tell. */
  lemma PlainAddRefinesIff(env: Env, st: State, p: PodInfo)
    requires Refines(env, st) && p.IsHealthy() && p.Id() !in st.tracked && Evicted(st.tracked, p).None?
    requires DistinctIps(HandleEvent(env, st, p).tracked)
    ensures Refines(env, HandleEvent(env, st, p)) <==> env.answer(|st.log|) != NoQueue
  {
    var next := HandleEvent(env, st, p);
    var wanted, reg := Specs(env, st.tracked), Registered(st.log);
    RegisteredSnoc(st.log, Submission(AddWorker(SpecOf(env, p)), env.answer(|st.log|)));
    PlainAddTracked(env, st, p);
    if env.answer(|st.log|) != Rejected {
      SpecsWith(env, st.tracked, p);
      IpsGiveUrls(env, next.tracked);
      AddBoth(wanted, reg, p.Id(), SpecOf(env, p));
    }
  }

  /** What a restart does to the tracked set and, through its two jobs, to the registry. */
  lemma RestartEffect(env: Env, st: State, p: PodInfo, prior: PodId)
    requires p.IsHealthy() && p.Id() !in st.tracked && Evicted(st.tracked, p) == Some(prior)
    ensures var next := HandleEvent(env, st, p);
            var rest := st.tracked - {prior};
            && next.tracked == (if env.answer(|st.log| + 1) == Rejected then rest else rest[p.Id() := p])
            && Registered(next.log) == ApplyJob(
                 ApplyJob(Registered(st.log),
                     Submission(RemoveWorker(st.tracked[prior].WorkerUrl(env.port)), env.answer(|st.log|))),
                 Submission(AddWorker(SpecOf(env, p)), env.answer(|st.log| + 1)))
  {
    var removal := Submission(RemoveWorker(st.tracked[prior].WorkerUrl(env.port)), env.answer(|st.log|));
    RegisteredSnoc(st.log, removal);
    RegisteredSnoc(st.log + [removal], Submission(AddWorker(SpecOf(env, p)), env.answer(|st.log| + 1)));
    if env.answer(|st.log| + 1) == Rejected {
      assert (st.tracked - {prior})[p.Id() := p] - {p.Id()} == st.tracked - {prior};
    }
  }

  lemma RestartRefinesIff(env: Env, st: State, p: PodInfo, prior: PodId)
    requires Refines(env, st) && DistinctIps(st.tracked)
    requires p.IsHealthy() && p.Id() !in st.tracked && Evicted(st.tracked, p) == Some(prior)
    requires DistinctIps(HandleEvent(env, st, p).tracked)
    ensures Refines(env, HandleEvent(env, st, p)) <==> Safe(env, st, Event(p))
  {
    RestartEffect(env, st, p, prior);
    IpsGiveUrls(env, st.tracked);
    IpsGiveUrls(env, HandleEvent(env, st, p).tracked);
    SpecsWithout(env, st.tracked, prior);
    SpecsWith(env, st.tracked - {prior}, p);
    WorkerUrlInjective(p, st.tracked[prior], env.port);
    RestartMirrorsIff(Specs(env, st.tracked), Registered(st.log), prior, p.Id(), SpecOf(env, p),
                      env.answer(|st.log|), env.answer(|st.log| + 1));
  }

  /** From a refined state a handler leads to a refined state exactly if it is safe. */
  lemma StepRefinesIff(env: Env, st: State, m: Micro)
    requires Refines(env, st) && DistinctIps(st.tracked) && DistinctIps(Step(env, st, m).tracked) && DropsTracked(st, m)
    ensures Refines(env, Step(env, st, m)) <==> Safe(env, st, m)
  {
    match m
    case Event(p) =>
      if p.IsHealthy() && p.Id() !in st.tracked {
        if Evicted(st.tracked, p).None? {
          PlainAddRefinesIff(env, st, p);
        } else {
          RestartRefinesIff(env, st, p, Evicted(st.tracked, p).value);
        }
      }
    case Delete(p) => DeleteRefinesIff(env, st, p);
    case Drop(p) => DropRefines(env, st, p);
  }

  // ---------------------------------------------------------------- whole runs

  ghost function Run(env: Env, st: State, ms: seq<Micro>): State
    decreases |ms|
  {
    if ms == [] then st else Run(env, Step(env, st, ms[0]), ms[1..])
  }

  /** No two pods with one IP are ever tracked together. */
  ghost predicate DistinctThroughout(env: Env, st: State, ms: seq<Micro>)
    decreases |ms|
  {
    DistinctIps(st.tracked) && (ms != [] ==> DistinctThroughout(env, Step(env, st, ms[0]), ms[1..]))
  }

  /** What is dropped as stale is tracked at that moment. */
  ghost predicate DropsTrackedThroughout(env: Env, st: State, ms: seq<Micro>)
    decreases |ms|
  {
    ms != [] ==> DropsTracked(st, ms[0]) && DropsTrackedThroughout(env, Step(env, st, ms[0]), ms[1..])
  }

  ghost predicate SafeThroughout(env: Env, st: State, ms: seq<Micro>)
    decreases |ms|
  {
    ms != [] ==> Safe(env, st, ms[0]) && SafeThroughout(env, Step(env, st, ms[0]), ms[1..])
  }

  ghost predicate RefinesThroughout(env: Env, st: State, ms: seq<Micro>)
    decreases |ms|
  {
    Refines(env, st) && (ms != [] ==> RefinesThroughout(env, Step(env, st, ms[0]), ms[1..]))
  }

  /** Over any run, with any failures: jobs and tracking agree all along exactly if every step is safe. */
  lemma {:induction false} RunRefinesIff(env: Env, st: State, ms: seq<Micro>)
    requires Refines(env, st) && DistinctThroughout(env, st, ms) && DropsTrackedThroughout(env, st, ms)
    ensures RefinesThroughout(env, st, ms) <==> SafeThroughout(env, st, ms)
    decreases |ms|
  {
    if ms == [] {
    } else {
      var next := Step(env, st, ms[0]);
      StepRefinesIff(env, st, ms[0]);
      if Refines(env, next) {
        RunRefinesIff(env, next, ms[1..]);
      }
    }
  }

  lemma {:induction false} RefinesAtEnd(env: Env, st: State, ms: seq<Micro>)
    requires RefinesThroughout(env, st, ms)
    ensures Refines(env, Run(env, st, ms))
    decreases |ms|
  {
    if ms == [] {
    } else {
      RefinesAtEnd(env, Step(env, st, ms[0]), ms[1..]);
    }
  }

  // ---------------------------------------------------------------- handlers and cycles

  datatype Command =
    | PodEvent(pod: PodInfo)
    | PodDeletion(pod: PodInfo)
    | Reconciliation(live: PodSet, stale: seq<PodInfo>, missing: seq<PodInfo>)

  ghost function Exec(env: Env, st: State, c: Command): State {
    match c
    case PodEvent(p) => HandleEvent(env, st, p)
    case PodDeletion(p) => HandleDeletion(env, st, p)
    case Reconciliation(_, stale, missing) => Reconcile(env, st, stale, missing)
  }

  ghost function ExecAll(env: Env, st: State, cs: seq<Command>): State
    decreases |cs|
  {
    if cs == [] then st else ExecAll(env, Exec(env, st, cs[0]), cs[1..])
  }

  /** Every reconciliation works off, in some order, the differences it finds at its start. */
  ghost predicate Legal(env: Env, st: State, cs: seq<Command>)
    decreases |cs|
  {
    cs != [] ==>
      && (cs[0].Reconciliation? ==>
            && Enumerates(cs[0].stale, Stale(st.tracked, cs[0].live))
            && Enumerates(cs[0].missing, Missing(st.tracked, cs[0].live)))
      && Legal(env, Exec(env, st, cs[0]), cs[1..])
  }

  function Drops(pods: seq<PodInfo>): seq<Micro> {
    if pods == [] then [] else [Drop(pods[0])] + Drops(pods[1..])
  }

  function Events(pods: seq<PodInfo>): seq<Micro> {
    if pods == [] then [] else [Event(pods[0])] + Events(pods[1..])
  }

  function Expand(c: Command): seq<Micro> {
    match c
    case PodEvent(p) => [Event(p)]
    case PodDeletion(p) => [Delete(p)]
    case Reconciliation(_, stale, missing) => Drops(stale) + Events(missing)
  }

  function ExpandAll(cs: seq<Command>): seq<Micro> {
    if cs == [] then [] else Expand(cs[0]) + ExpandAll(cs[1..])
  }

  lemma {:induction false} RunAppend(env: Env, st: State, a: seq<Micro>, b: seq<Micro>)
    ensures Run(env, st, a + b) == Run(env, Run(env, st, a), b)
    decreases |a|
  {
    if a == [] {
      assert a + b == b;
    } else {
      assert (a + b)[1..] == a[1..] + b;
      RunAppend(env, Step(env, st, a[0]), a[1..], b);
    }
  }

  lemma {:induction false} RunDrops(env: Env, st: State, pods: seq<PodInfo>)
    ensures Run(env, st, Drops(pods)) == DropAll(env, st, pods)
    decreases |pods|
  {
    if pods == [] {
    } else {
      assert Drops(pods)[1..] == Drops(pods[1..]);
      RunDrops(env, DropStale(env, st, pods[0]), pods[1..]);
    }
  }

  lemma {:induction false} RunEvents(env: Env, st: State, pods: seq<PodInfo>)
    ensures Run(env, st, Events(pods)) == AddAll(env, st, pods)
    decreases |pods|
  {
    if pods == [] {
    } else {
      assert Events(pods)[1..] == Events(pods[1..]);
      RunEvents(env, HandleEvent(env, st, pods[0]), pods[1..]);
    }
  }

  lemma RunExpand(env: Env, st: State, c: Command)
    ensures Run(env, st, Expand(c)) == Exec(env, st, c)
  {
    match c
    case PodEvent(p) => assert Run(env, Step(env, st, Event(p)), []) == HandleEvent(env, st, p);
    case PodDeletion(p) => assert Run(env, Step(env, st, Delete(p)), []) == HandleDeletion(env, st, p);
    case Reconciliation(_, stale, missing) =>
      RunAppend(env, st, Drops(stale), Events(missing));
      RunDrops(env, st, stale);
      RunEvents(env, DropAll(env, st, stale), missing);
  }

  lemma {:induction false} RunExpandAll(env: Env, st: State, cs: seq<Command>)
    ensures Run(env, st, ExpandAll(cs)) == ExecAll(env, st, cs)
    decreases |cs|
  {
    if cs == [] {
    } else {
      RunAppend(env, st, Expand(cs[0]), ExpandAll(cs[1..]));
      RunExpand(env, st, cs[0]);
      RunExpandAll(env, Exec(env, st, cs[0]), cs[1..]);
    }
  }

  lemma {:induction false} DropsTrackedAppend(env: Env, st: State, a: seq<Micro>, b: seq<Micro>)
    requires DropsTrackedThroughout(env, st, a) && DropsTrackedThroughout(env, Run(env, st, a), b)
    ensures DropsTrackedThroughout(env, st, a + b)
    decreases |a|
  {
    if a == [] {
      assert a + b == b;
    } else {
      assert (a + b)[1..] == a[1..] + b;
      DropsTrackedAppend(env, Step(env, st, a[0]), a[1..], b);
    }
  }

  ghost predicate TrackedAsListed(tracked: PodSet, pods: seq<PodInfo>) {
    && (forall i :: 0 <= i < |pods| ==> pods[i].Id() in tracked && tracked[pods[i].Id()] == pods[i])
    && (forall i, j :: 0 <= i < j < |pods| ==> pods[i].Id() != pods[j].Id())
  }

  lemma {:induction false} DropsTrackedDrops(env: Env, st: State, pods: seq<PodInfo>)
    requires TrackedAsListed(st.tracked, pods)
    ensures DropsTrackedThroughout(env, st, Drops(pods))
    decreases |pods|
  {
    if pods == [] {
    } else {
      assert Drops(pods)[1..] == Drops(pods[1..]);
      assert TrackedAsListed(st.tracked - {pods[0].Id()}, pods[1..]);
      DropsTrackedDrops(env, DropStale(env, st, pods[0]), pods[1..]);
    }
  }

  lemma {:induction false} DropsTrackedEvents(env: Env, st: State, pods: seq<PodInfo>)
    ensures DropsTrackedThroughout(env, st, Events(pods))
    decreases |pods|
  {
    if pods == [] {
    } else {
      assert Events(pods)[1..] == Events(pods[1..]);
      DropsTrackedEvents(env, HandleEvent(env, st, pods[0]), pods[1..]);
    }
  }

  lemma LegalCommandDropsTracked(env: Env, st: State, c: Command)
    requires c.Reconciliation? ==> Enumerates(c.stale, Stale(st.tracked, c.live))
    ensures DropsTrackedThroughout(env, st, Expand(c))
  {
    match c
    case PodEvent(p) =>
      assert DropsTrackedThroughout(env, Step(env, st, Event(p)), []);
    case PodDeletion(p) =>
      assert DropsTrackedThroughout(env, Step(env, st, Delete(p)), []);
    case Reconciliation(_, stale, missing) =>
      DropsTrackedDrops(env, st, stale);
      RunDrops(env, st, stale);
      DropsTrackedEvents(env, DropAll(env, st, stale), missing);
      DropsTrackedAppend(env, st, Drops(stale), Events(missing));
  }

  lemma {:induction false} LegalDropsTracked(env: Env, st: State, cs: seq<Command>)
    requires Legal(env, st, cs)
    ensures DropsTrackedThroughout(env, st, ExpandAll(cs))
    decreases |cs|
  {
    if cs == [] {
    } else {
      LegalCommandDropsTracked(env, st, cs[0]);
      RunExpand(env, st, cs[0]);
      LegalDropsTracked(env, Exec(env, st, cs[0]), cs[1..]);
      DropsTrackedAppend(env, st, Expand(cs[0]), ExpandAll(cs[1..]));
    }
  }

  // ---------------------------------------------------------------- runs without failures

  /** The IP of a pod is fixed by its identity, in every event and every list. */
  ghost predicate FixedIps(ms: seq<Micro>, ipOf: PodId -> string) {
    forall i :: 0 <= i < |ms| && !ms[i].Drop? ==> ms[i].pod.ip == ipOf(ms[i].pod.Id())
  }

  ghost predicate TrackedIps(tracked: PodSet, ipOf: PodId -> string) {
    forall k :: k in tracked ==> tracked[k].ip == ipOf(k)
  }

  lemma {:induction false} LogGrows(env: Env, st: State, ms: seq<Micro>)
    ensures |st.log| <= |Run(env, st, ms).log|
    decreases |ms|
  {
    if ms == [] {
    } else {
      LogGrows(env, Step(env, st, ms[0]), ms[1..]);
    }
  }

  lemma CleanStepSafe(env: Env, st: State, m: Micro, ipOf: PodId -> string)
    requires TrackedIps(st.tracked, ipOf) && FixedIps([m], ipOf)
    requires forall n :: 0 <= n < |Step(env, st, m).log| ==> env.answer(n) == Accepted
    ensures Safe(env, st, m) && TrackedIps(Step(env, st, m).tracked, ipOf)
  {
    assert [m][0] == m;
    var next := Step(env, st, m);
    match m
    case Event(p) =>
      if p.IsHealthy() && p.Id() !in st.tracked {
        assert |next.log| == |st.log| + if Evicted(st.tracked, p).Some? then 2 else 1;
      }
    case Delete(p) =>
      if p.Id() in st.tracked {
        assert |next.log| == |st.log| + 1;
      }
    case Drop(p) =>
  }

  lemma {:induction false} CleanRunSafe(env: Env, st: State, ms: seq<Micro>, ipOf: PodId -> string)
    requires TrackedIps(st.tracked, ipOf) && FixedIps(ms, ipOf)
    requires forall n :: 0 <= n < |Run(env, st, ms).log| ==> env.answer(n) == Accepted
    ensures SafeThroughout(env, st, ms)
    decreases |ms|
  {
    if ms == [] {
    } else {
      var next := Step(env, st, ms[0]);
      LogGrows(env, next, ms[1..]);
      assert FixedIps([ms[0]], ipOf) && FixedIps(ms[1..], ipOf);
      CleanStepSafe(env, st, ms[0], ipOf);
      CleanRunSafe(env, next, ms[1..], ipOf);
    }
  }

  /**
   * Job-log refinement: after any run of complete handlers and reconciliations in which no submission
   * failed, replaying the jobs in order gives exactly the workers of the tracked pods.
   */
  lemma JobLogRefinement(env: Env, cs: seq<Command>, ipOf: PodId -> string)
    requires Legal(env, START, cs)
    requires DistinctThroughout(env, START, ExpandAll(cs)) && FixedIps(ExpandAll(cs), ipOf)
    requires forall n :: 0 <= n < |ExecAll(env, START, cs).log| ==> env.answer(n) == Accepted
    ensures Refines(env, ExecAll(env, START, cs))
  {
    var ms := ExpandAll(cs);
    RunExpandAll(env, START, cs);
    CleanRunSafe(env, START, ms, ipOf);
    LegalDropsTracked(env, START, cs);
    RunRefinesIff(env, START, ms);
    RefinesAtEnd(env, START, ms);
  }
}
