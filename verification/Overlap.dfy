/**
 * Jobs against tracking when the two actors overlap.
 *
 * An actor that has changed the tracked set owes the queue the jobs for the addresses it touched. An
 * address nobody owes a job for is settled. Jobs and tracking agree on the settled addresses all along
 * exactly if every step that settles an address is timely: what it leaves tracked at that address is what
 * the address's latest job says.
 */
module Overlap {
  import opened Text
  import opened Pods
  import opened Discovery
  import opened Refinement
  import opened Interleaving

  // ---------------------------------------------------------------- one address

  predicate Holds(env: Env, tracked: PodSet, k: PodId, url: string) {
    k in tracked && tracked[k].WorkerUrl(env.port) == url
  }

  ghost predicate Vacant(env: Env, tracked: PodSet, url: string) {
    forall k :: !Holds(env, tracked, k, url)
  }

  /** The worker registered at an address is that of every pod tracked there, and there is one only if a pod is. */
  ghost predicate AgreesAt(env: Env, st: State, url: string) {
    var reg := Registered(st.log);
    && (forall k :: Holds(env, st.tracked, k, url) ==> url in reg && reg[url] == SpecOf(env, st.tracked[k]))
    && (url in reg ==> exists k :: Holds(env, st.tracked, k, url))
  }

  /** The last accepted job about an address. */
  function LatestJob(log: seq<Submission>, url: string): Option<Job> {
    if log == [] then None
    else
      var last := log[|log| - 1];
      var about := match last.job case AddWorker(spec) => spec.url case RemoveWorker(u) => u;
      if last.outcome == Accepted && about == url then Some(last.job) else LatestJob(log[..|log| - 1], url)
  }

  /** So agreement at an address can be read off its latest job: an addition of what is tracked there, or none. */
  lemma {:induction false} RegisteredIsLatest(log: seq<Submission>, url: string)
    ensures url in Registered(log) <==> LatestJob(log, url).Some? && LatestJob(log, url).value.AddWorker?
    ensures url in Registered(log) ==> LatestJob(log, url).value.spec == Registered(log)[url]
  {
    if log == [] {
    } else {
      RegisteredIsLatest(log[..|log| - 1], url);
    }
  }

  /** What is tracked at an address is what its latest job asked for. */
  ghost predicate AsAsked(env: Env, log: seq<Submission>, tracked: PodSet, url: string) {
    var job := LatestJob(log, url);
    if job.Some? && job.value.AddWorker? then
      && !Vacant(env, tracked, url)
      && forall k :: Holds(env, tracked, k, url) ==> SpecOf(env, tracked[k]) == job.value.spec
    else Vacant(env, tracked, url)
  }

  lemma AgreesIffAsked(env: Env, st: State, url: string)
    ensures AgreesAt(env, st, url) <==> AsAsked(env, st.log, st.tracked, url)
  {
    RegisteredIsLatest(st.log, url);
  }

  lemma RefinesIffAgrees(env: Env, st: State)
    ensures Refines(env, st) <==> forall url :: AgreesAt(env, st, url)
  {
    var wanted, reg := Specs(env, st.tracked), Registered(st.log);
    if Refines(env, st) {
      forall url
        ensures AgreesAt(env, st, url)
      {
        assert forall k :: Holds(env, st.tracked, k, url) ==> k in wanted && wanted[k].url == url;
        if url in reg {
          var k :| k in wanted && wanted[k].url == url;
          assert Holds(env, st.tracked, k, url);
        }
      }
    }
    if forall url :: AgreesAt(env, st, url) {
      forall k | k in wanted
        ensures wanted[k].url in reg && reg[wanted[k].url] == wanted[k]
      {
        assert AgreesAt(env, st, wanted[k].url) && Holds(env, st.tracked, k, wanted[k].url);
      }
      forall url | url in reg
        ensures exists k :: k in wanted && wanted[k].url == url
      {
        assert AgreesAt(env, st, url);
        var k :| Holds(env, st.tracked, k, url);
        assert wanted[k].url == url;
      }
    }
  }

  /** Neither the pods tracked at an address nor its worker differ. */
  ghost predicate SameAt(env: Env, a: State, b: State, url: string) {
    && (forall k :: Holds(env, a.tracked, k, url) <==> Holds(env, b.tracked, k, url))
    && (forall k :: Holds(env, a.tracked, k, url) ==> a.tracked[k] == b.tracked[k])
    && (url in Registered(a.log) <==> url in Registered(b.log))
    && (url in Registered(a.log) ==> Registered(a.log)[url] == Registered(b.log)[url])
  }

  lemma SameAgrees(env: Env, a: State, b: State, url: string)
    requires SameAt(env, a, b, url)
    ensures AgreesAt(env, a, url) <==> AgreesAt(env, b, url)
  {
    if exists k :: Holds(env, a.tracked, k, url) {
      var k :| Holds(env, a.tracked, k, url);
      assert Holds(env, b.tracked, k, url);
    }
  }

  // ---------------------------------------------------------------- the effect of a section on an address

  lemma RemovalElsewhere(env: Env, st: State, url: string, other: string)
    requires other != url
    ensures SameAt(env, st, Submit(env, st, RemoveWorker(url)), other)
  {
    RegisteredSnoc(st.log, Submission(RemoveWorker(url), env.answer(|st.log|)));
  }

  lemma AdditionElsewhere(env: Env, st: State, pod: PodInfo, other: string)
    requires other != pod.WorkerUrl(env.port)
    ensures SameAt(env, st, Submit(env, st, AddWorker(SpecOf(env, pod))), other)
  {
    RegisteredSnoc(st.log, Submission(AddWorker(SpecOf(env, pod)), env.answer(|st.log|)));
  }

  lemma UntrackElsewhere(env: Env, st: State, id: PodId, other: string)
    requires id in st.tracked ==> st.tracked[id].WorkerUrl(env.port) != other
    ensures SameAt(env, st, Untrack(st, id), other)
  {
  }

  lemma ReplaceElsewhere(env: Env, st: State, pod: PodInfo, other: string)
    requires other != pod.WorkerUrl(env.port) && pod.Id() !in st.tracked
    requires var prior := Evicted(st.tracked, pod); prior.Some? ==> st.tracked[prior.value].WorkerUrl(env.port) != other
    ensures SameAt(env, st, st.(tracked := Replace(st.tracked, pod)), other)
  {
  }

  /** A removal settles its address in time if nobody is tracked there, or it fails and all was as asked before. */
  ghost predicate RemovalTimely(env: Env, st: State, url: string) {
    if env.answer(|st.log|) == Accepted then Vacant(env, st.tracked, url) else AsAsked(env, st.log, st.tracked, url)
  }

  /** An addition does if, once accepted, somebody is tracked there, described as submitted. */
  ghost predicate AdditionTimely(env: Env, st: State, pod: PodInfo) {
    var url := pod.WorkerUrl(env.port);
    match env.answer(|st.log|)
    case Accepted =>
      && !Vacant(env, st.tracked, url)
      && forall k :: Holds(env, st.tracked, k, url) ==> SpecOf(env, st.tracked[k]) == SpecOf(env, pod)
    case Rejected => true
    case NoQueue => AsAsked(env, st.log, st.tracked, url)
  }

  lemma RemovalSettles(env: Env, st: State, url: string)
    ensures AgreesAt(env, Submit(env, st, RemoveWorker(url)), url) <==> RemovalTimely(env, st, url)
  {
    RegisteredSnoc(st.log, Submission(RemoveWorker(url), env.answer(|st.log|)));
    AgreesIffAsked(env, st, url);
  }

  lemma AdditionSettles(env: Env, st: State, pod: PodInfo)
    requires env.answer(|st.log|) != Rejected
    ensures AgreesAt(env, Submit(env, st, AddWorker(SpecOf(env, pod))), pod.WorkerUrl(env.port))
            <==> AdditionTimely(env, st, pod)
  {
    var url := pod.WorkerUrl(env.port);
    RegisteredSnoc(st.log, Submission(AddWorker(SpecOf(env, pod)), env.answer(|st.log|)));
    AgreesIffAsked(env, st, url);
  }

  // ---------------------------------------------------------------- what an actor still owes

  function OwedByHandler(env: Env, h: Handler): set<string> {
    match h
    case Resting => {}
    case Evicting(pod, prior, _) => {prior.WorkerUrl(env.port), pod.WorkerUrl(env.port)}
    case Adding(pod, _) => {pod.WorkerUrl(env.port)}
    case RollingBack(pod) => {pod.WorkerUrl(env.port)}
  }

  /** The addresses the watcher has changed and not yet submitted its last job for. */
  function OwedByWatcher(env: Env, w: Watcher): set<string> {
    match w
    case OnEvent(h) => OwedByHandler(env, h)
    case OnDeletion(pod) => {pod.WorkerUrl(env.port)}
  }

  /** For the reconciler also the address whose removal was accepted and whose pod is still tracked. */
  function OwedByReconciler(env: Env, r: Reconciler): set<string> {
    match r
    case DropAccepted(stale, _) => if stale == [] then {} else {stale[0].WorkerUrl(env.port)}
    case AddingMissing(_, h) => OwedByHandler(env, h)
    case _ => {}
  }

  function Owed(env: Env, s: System): set<string> {
    OwedByWatcher(env, s.watcher) + OwedByReconciler(env, s.reconciler)
  }

  /** Jobs and tracking agree wherever nobody owes a job. */
  ghost predicate SettledAgree(env: Env, s: System) {
    forall url :: url !in Owed(env, s) ==> AgreesAt(env, s.shared, url)
  }

  /** The handler's next step settles an address, unless the other actor owes a job for it too. */
  ghost predicate HandlerTimely(env: Env, st: State, h: Handler, others: set<string>) {
    match h
    case Resting => true
    case Evicting(pod, prior, _) =>
      var url := prior.WorkerUrl(env.port);
      url != pod.WorkerUrl(env.port) && url !in others ==> RemovalTimely(env, st, url)
    case Adding(pod, _) => pod.WorkerUrl(env.port) !in others ==> AdditionTimely(env, st, pod)
    case RollingBack(pod) =>
      pod.WorkerUrl(env.port) !in others ==> AsAsked(env, st.log, st.tracked - {pod.Id()}, pod.WorkerUrl(env.port))
  }

  /** Checkable before the step: every address it settles is left as its latest job says. */
  ghost predicate Timely(env: Env, s: System, a: Action) {
    match a
    case WatcherStep =>
      var others := OwedByReconciler(env, s.reconciler);
      if s.watcher.OnDeletion? then
        var url := s.watcher.pod.WorkerUrl(env.port);
        url !in others ==> RemovalTimely(env, s.shared, url)
      else HandlerTimely(env, s.shared, s.watcher.handler, others)
    case ReconcilerStep =>
      var others := OwedByWatcher(env, s.watcher);
      (match s.reconciler
       case DropAccepted(stale, _) =>
         stale != [] && stale[0].WorkerUrl(env.port) !in others ==>
           AsAsked(env, s.shared.log, s.shared.tracked - {stale[0].Id()}, stale[0].WorkerUrl(env.port))
       case AddingMissing(_, h) => HandlerTimely(env, s.shared, h, others)
       case _ => true)
    case ReconcilerRestart =>
      forall url :: url in OwedByReconciler(env, s.reconciler) && url !in OwedByWatcher(env, s.watcher) ==>
        AsAsked(env, s.shared.log, s.shared.tracked, url)
    case _ => true
  }

  // ---------------------------------------------------------------- addresses are fixed

  predicate AtHome(pod: PodInfo, ipOf: PodId -> string) {
    pod.ip == ipOf(pod.Id())
  }

  predicate AllAtHome(pods: seq<PodInfo>, ipOf: PodId -> string) {
    forall i :: 0 <= i < |pods| ==> AtHome(pods[i], ipOf)
  }

  predicate HandlerAtHome(h: Handler, ipOf: PodId -> string) {
    match h
    case Resting => true
    case Evicting(pod, prior, _) => AtHome(pod, ipOf) && AtHome(prior, ipOf)
    case Adding(pod, _) => AtHome(pod, ipOf)
    case RollingBack(pod) => AtHome(pod, ipOf)
  }

  predicate WatcherAtHome(w: Watcher, ipOf: PodId -> string) {
    if w.OnDeletion? then AtHome(w.pod, ipOf) else HandlerAtHome(w.handler, ipOf)
  }

  ghost predicate ReconcilerAtHome(r: Reconciler, ipOf: PodId -> string) {
    match r
    case Waiting => true
    case Listed(live) => TrackedIps(live, ipOf)
    case Dropping(stale, missing) => AllAtHome(stale, ipOf) && AllAtHome(missing, ipOf)
    case DropAccepted(stale, missing) => AllAtHome(stale, ipOf) && AllAtHome(missing, ipOf)
    case AddingMissing(missing, h) => AllAtHome(missing, ipOf) && HandlerAtHome(h, ipOf)
  }

  /** Wherever the system mentions a pod, it has the address of its identity. */
  ghost predicate SystemAtHome(s: System, ipOf: PodId -> string) {
    TrackedIps(s.shared.tracked, ipOf) && WatcherAtHome(s.watcher, ipOf) && ReconcilerAtHome(s.reconciler, ipOf)
  }

  ghost predicate ActionAtHome(a: Action, ipOf: PodId -> string) {
    match a
    case WatchEvent(pod) => AtHome(pod, ipOf)
    case WatchDeletion(pod) => AtHome(pod, ipOf)
    case List(live) => TrackedIps(live, ipOf)
    case _ => true
  }

  lemma EnterAtHome(s: System, pod: PodInfo, ipOf: PodId -> string)
    requires TrackedIps(s.shared.tracked, ipOf) && AtHome(pod, ipOf)
    ensures var (next, h) := EnterEvent(s, pod);
            TrackedIps(next.shared.tracked, ipOf) && HandlerAtHome(h, ipOf)
  {
  }

  lemma HandlerStepAtHome(env: Env, s: System, h: Handler, ipOf: PodId -> string)
    requires TrackedIps(s.shared.tracked, ipOf) && HandlerAtHome(h, ipOf)
    ensures var (next, h') := HandlerStep(env, s, h);
            TrackedIps(next.shared.tracked, ipOf) && HandlerAtHome(h', ipOf)
  {
  }

  lemma ReconcilerStepAtHome(env: Env, s: System, ipOf: PodId -> string)
    requires SystemAtHome(s, ipOf)
    ensures SystemAtHome(ReconcilerMove(env, s), ipOf)
  {
    if s.reconciler.AddingMissing? {
      HandlerStepAtHome(env, s, s.reconciler.handler, ipOf);
      if s.reconciler.missing != [] {
        EnterAtHome(s, s.reconciler.missing[0], ipOf);
      }
    }
  }

  lemma StepAtHome(env: Env, s: System, a: Action, ipOf: PodId -> string)
    requires SystemAtHome(s, ipOf) && ActionAtHome(a, ipOf) && Enabled(s, a)
    ensures SystemAtHome(Act(env, s, a), ipOf)
  {
    match a
    case WatchEvent(pod) => EnterAtHome(s, pod, ipOf);
    case WatcherStep =>
      if s.watcher.OnEvent? {
        HandlerStepAtHome(env, s, s.watcher.handler, ipOf);
      }
    case ReconcilerStep => ReconcilerStepAtHome(env, s, ipOf);
    case _ =>
  }

  // ---------------------------------------------------------------- steps change only what is owed

  lemma EnterElsewhere(env: Env, s: System, pod: PodInfo, url: string)
    requires url !in OwedByHandler(env, EnterEvent(s, pod).1)
    ensures SameAt(env, s.shared, EnterEvent(s, pod).0.shared, url)
  {
    if pod.IsHealthy() && pod.Id() !in s.shared.tracked {
      ReplaceElsewhere(env, s.shared, pod, url);
    }
  }

  lemma UntrackOwed(env: Env, s: System, pod: PodInfo, ipOf: PodId -> string, url: string)
    requires TrackedIps(s.shared.tracked, ipOf) && AtHome(pod, ipOf) && url != pod.WorkerUrl(env.port)
    ensures SameAt(env, s.shared, RemoveTracked(s, pod.Id()).shared, url)
  {
    if pod.Id() in s.shared.tracked {
      WorkerUrlInjective(pod, s.shared.tracked[pod.Id()], env.port);
      UntrackElsewhere(env, s.shared, pod.Id(), url);
    }
  }

  lemma HandlerElsewhere(env: Env, s: System, h: Handler, ipOf: PodId -> string, url: string)
    requires TrackedIps(s.shared.tracked, ipOf) && HandlerAtHome(h, ipOf) && url !in OwedByHandler(env, h)
    ensures SameAt(env, s.shared, HandlerStep(env, s, h).0.shared, url)
  {
    match h
    case Resting =>
    case Evicting(pod, prior, _) => RemovalElsewhere(env, s.shared, prior.WorkerUrl(env.port), url);
    case Adding(pod, _) => AdditionElsewhere(env, s.shared, pod, url);
    case RollingBack(pod) => UntrackOwed(env, s, pod, ipOf, url);
  }

  predicate OfWatcher(a: Action) {
    a.WatchEvent? || a.WatchDeletion? || a.WatcherStep?
  }

  /** Outside the addresses it owes before or after, the watcher changes nothing. */
  lemma WatcherElsewhere(env: Env, s: System, a: Action, ipOf: PodId -> string, url: string)
    requires SystemAtHome(s, ipOf) && ActionAtHome(a, ipOf) && Enabled(s, a) && OfWatcher(a)
    requires url !in OwedByWatcher(env, s.watcher) + OwedByWatcher(env, Act(env, s, a).watcher)
    ensures SameAt(env, s.shared, Act(env, s, a).shared, url)
  {
    match a
    case WatchEvent(pod) => EnterElsewhere(env, s, pod, url);
    case WatchDeletion(pod) =>
      if pod.Id() in s.shared.tracked {
        UntrackOwed(env, s, pod, ipOf, url);
      }
    case WatcherStep =>
      if s.watcher.OnDeletion? {
        RemovalElsewhere(env, s.shared, s.watcher.pod.WorkerUrl(env.port), url);
      } else {
        HandlerElsewhere(env, s, s.watcher.handler, ipOf, url);
      }
  }

  lemma ReconcilerElsewhere(env: Env, s: System, ipOf: PodId -> string, url: string)
    requires SystemAtHome(s, ipOf)
    requires url !in OwedByReconciler(env, s.reconciler) + OwedByReconciler(env, ReconcilerMove(env, s).reconciler)
    ensures SameAt(env, s.shared, ReconcilerMove(env, s).shared, url)
  {
    match s.reconciler
    case Dropping(stale, _) =>
      if stale != [] {
        DropElsewhere(env, s, stale[0].WorkerUrl(env.port), url);
      }
    case DropAccepted(stale, _) =>
      if stale != [] {
        UntrackOwed(env, s, stale[0], ipOf, url);
      }
    case AddingMissing(missing, h) =>
      if h != Resting {
        HandlerElsewhere(env, s, h, ipOf, url);
      } else if missing != [] {
        EnterElsewhere(env, s, missing[0], url);
      }
    case _ =>
  }

  /** A removal that is not accepted changes no worker at all. */
  lemma DropElsewhere(env: Env, s: System, url: string, other: string)
    requires env.answer(|s.shared.log|) == Accepted ==> other != url
    ensures SameAt(env, s.shared, SubmitRemoval(env, s, url).shared, other)
  {
    RegisteredSnoc(s.shared.log, Submission(RemoveWorker(url), env.answer(|s.shared.log|)));
  }

  // ---------------------------------------------------------------- a step settles what it no longer owes

  ghost predicate SettlesWell(env: Env, st: State, before: set<string>, after: set<string>, others: set<string>) {
    forall url :: url in before && url !in after && url !in others ==> AgreesAt(env, st, url)
  }

  lemma HandlerSettles(env: Env, s: System, h: Handler, others: set<string>)
    ensures var (next, h') := HandlerStep(env, s, h);
            SettlesWell(env, next.shared, OwedByHandler(env, h), OwedByHandler(env, h'), others)
            <==> HandlerTimely(env, s.shared, h, others)
  {
    match h
    case Resting =>
    case Evicting(pod, prior, _) => RemovalSettles(env, s.shared, prior.WorkerUrl(env.port));
    case Adding(pod, _) =>
      if env.answer(|s.shared.log|) != Rejected {
        AdditionSettles(env, s.shared, pod);
      }
    case RollingBack(pod) =>
      UntrackedIs(s, pod.Id());
      AgreesIffAsked(env, Untrack(s.shared, pod.Id()), pod.WorkerUrl(env.port));
  }

  lemma WatcherSettles(env: Env, s: System, a: Action)
    requires Enabled(s, a) && OfWatcher(a)
    ensures SettlesWell(env, Act(env, s, a).shared, OwedByWatcher(env, s.watcher),
            OwedByWatcher(env, Act(env, s, a).watcher),
                        OwedByReconciler(env, s.reconciler))
            <==> Timely(env, s, a)
  {
    if a.WatcherStep? {
      if s.watcher.OnDeletion? {
        RemovalSettles(env, s.shared, s.watcher.pod.WorkerUrl(env.port));
      } else {
        HandlerSettles(env, s, s.watcher.handler, OwedByReconciler(env, s.reconciler));
      }
    }
  }

  lemma ReconcilerSettles(env: Env, s: System)
    ensures var next := ReconcilerMove(env, s);
            SettlesWell(env, next.shared, OwedByReconciler(env, s.reconciler), OwedByReconciler(env, next.reconciler),
                        OwedByWatcher(env, s.watcher))
            <==> Timely(env, s, ReconcilerStep)
  {
    match s.reconciler
    case DropAccepted(stale, _) =>
      if stale != [] {
        UntrackedIs(s, stale[0].Id());
        AgreesIffAsked(env, Untrack(s.shared, stale[0].Id()), stale[0].WorkerUrl(env.port));
      }
    case AddingMissing(_, h) => HandlerSettles(env, s, h, OwedByWatcher(env, s.watcher));
    case _ =>
  }

  /** Agreement carries over to what stays settled, so only what is newly settled is in question. */
  lemma AgreementCarries(env: Env, a: State, b: State, mine: set<string>, mine': set<string>, others: set<string>)
    requires forall url :: url !in mine + others ==> AgreesAt(env, a, url)
    requires forall url :: url !in mine + mine' ==> SameAt(env, a, b, url)
    ensures (forall url :: url !in mine' + others ==> AgreesAt(env, b, url))
            <==> SettlesWell(env, b, mine, mine', others)
  {
    forall url | url !in mine + mine' + others
      ensures AgreesAt(env, b, url)
    {
      assert url !in mine + mine' && url !in mine + others;
      SameAgrees(env, a, b, url);
    }
    if SettlesWell(env, b, mine, mine', others) {
      forall url | url !in mine' + others
        ensures AgreesAt(env, b, url)
      {
        if url !in mine {
          assert url !in mine + mine' + others;
        }
      }
    }
    if forall url :: url !in mine' + others ==> AgreesAt(env, b, url) {
      assert forall url :: url in mine && url !in mine' && url !in others ==> url !in mine' + others;
    }
  }

  /** From agreement on the settled addresses, a step leads to it exactly if the step is timely. */
  lemma StepAgreesIff(env: Env, s: System, a: Action, ipOf: PodId -> string)
    requires SettledAgree(env, s) && SystemAtHome(s, ipOf) && ActionAtHome(a, ipOf) && Enabled(s, a)
    ensures SettledAgree(env, Act(env, s, a)) <==> Timely(env, s, a)
  {
    if OfWatcher(a) {
      WatcherStepAgrees(env, s, a, ipOf);
    } else if a.ReconcilerStep? {
      ReconcilerStepAgrees(env, s, ipOf);
    } else if a.ReconcilerRestart? {
      RestartAgrees(env, s);
    }
  }

  lemma WatcherStepAgrees(env: Env, s: System, a: Action, ipOf: PodId -> string)
    requires SettledAgree(env, s) && SystemAtHome(s, ipOf) && ActionAtHome(a, ipOf) && Enabled(s, a) && OfWatcher(a)
    ensures SettledAgree(env, Act(env, s, a)) <==> Timely(env, s, a)
  {
    var next := Act(env, s, a);
    var mine, mine' := OwedByWatcher(env, s.watcher), OwedByWatcher(env, next.watcher);
    forall url | url !in mine + mine'
      ensures SameAt(env, s.shared, next.shared, url)
    {
      WatcherElsewhere(env, s, a, ipOf, url);
    }
    AgreementCarries(env, s.shared, next.shared, mine, mine', OwedByReconciler(env, s.reconciler));
    WatcherSettles(env, s, a);
    assert next.reconciler == s.reconciler;
  }

  lemma ReconcilerStepAgrees(env: Env, s: System, ipOf: PodId -> string)
    requires SettledAgree(env, s) && SystemAtHome(s, ipOf)
    ensures SettledAgree(env, ReconcilerMove(env, s)) <==> Timely(env, s, ReconcilerStep)
  {
    var next := ReconcilerMove(env, s);
    var mine, mine', others :=
      OwedByReconciler(env, s.reconciler), OwedByReconciler(env, next.reconciler), OwedByWatcher(env, s.watcher);
    forall url | url !in mine + mine'
      ensures SameAt(env, s.shared, next.shared, url)
    {
      ReconcilerElsewhere(env, s, ipOf, url);
    }
    AgreementCarries(env, s.shared, next.shared, mine, mine', others);
    ReconcilerSettles(env, s);
    assert next.watcher == s.watcher && mine + others == Owed(env, s) && mine' + others == Owed(env, next);
  }

  lemma RestartAgrees(env: Env, s: System)
    requires SettledAgree(env, s)
    ensures SettledAgree(env, Act(env, s, ReconcilerRestart)) <==> Timely(env, s, ReconcilerRestart)
  {
    var next := Act(env, s, ReconcilerRestart);
    assert forall url :: url in OwedByReconciler(env, s.reconciler) && url !in OwedByWatcher(env, s.watcher) ==>
        url !in Owed(env, next);
    forall url
      ensures AgreesAt(env, s.shared, url) <==> AsAsked(env, s.shared.log, s.shared.tracked, url)
    {
      AgreesIffAsked(env, s.shared, url);
    }
  }

  // ---------------------------------------------------------------- every interleaving

  ghost predicate AgreeThroughout(env: Env, s: System, acts: seq<Action>)
    decreases |acts|
  {
    SettledAgree(env, s) && (acts != [] ==> AgreeThroughout(env, Act(env, s, acts[0]), acts[1..]))
  }

  ghost predicate TimelyThroughout(env: Env, s: System, acts: seq<Action>)
    decreases |acts|
  {
    acts != [] ==> Timely(env, s, acts[0]) && TimelyThroughout(env, Act(env, s, acts[0]), acts[1..])
  }

  /** The address of a pod is fixed by its identity, in every event and every list. */
  ghost predicate ActionsAtHome(acts: seq<Action>, ipOf: PodId -> string) {
    forall i :: 0 <= i < |acts| ==> ActionAtHome(acts[i], ipOf)
  }

  /**
   * Over every interleaving, with any failures: jobs and tracking agree on the settled addresses all along
   * exactly if every step is timely.
   */
  lemma {:induction false} OverlapAgreesIff(env: Env, s: System, acts: seq<Action>, ipOf: PodId -> string)
    requires SettledAgree(env, s) && SystemAtHome(s, ipOf) && ActionsAtHome(acts, ipOf) && Possible(env, s, acts)
    ensures AgreeThroughout(env, s, acts) <==> TimelyThroughout(env, s, acts)
    decreases |acts|
  {
    if acts == [] {
    } else {
      var next := Act(env, s, acts[0]);
      StepAgreesIff(env, s, acts[0], ipOf);
      StepAtHome(env, s, acts[0], ipOf);
      if SettledAgree(env, next) {
        OverlapAgreesIff(env, next, acts[1..], ipOf);
      }
    }
  }

  /** Where no job is owed, agreement on the settled addresses is agreement on all of them. */
  lemma NothingOwed(env: Env, s: System)
    requires Owed(env, s) == {}
    ensures SettledAgree(env, s) <==> Refines(env, s.shared)
  {
    RefinesIffAgrees(env, s.shared);
  }

  lemma StartAgrees(env: Env, ipOf: PodId -> string)
    ensures SettledAgree(env, INITIAL) && SystemAtHome(INITIAL, ipOf)
  {
  }

  lemma {:induction false} AgreeAtEnd(env: Env, s: System, acts: seq<Action>)
    requires AgreeThroughout(env, s, acts)
    ensures SettledAgree(env, RunActions(env, s, acts))
    decreases |acts|
  {
    if acts == [] {
    } else {
      AgreeAtEnd(env, Act(env, s, acts[0]), acts[1..]);
    }
  }

  /** A timely run has the jobs of exactly its tracked pods whenever neither actor owes one. */
  lemma TimelyRunRefines(env: Env, acts: seq<Action>, ipOf: PodId -> string)
    requires Possible(env, INITIAL, acts) && ActionsAtHome(acts, ipOf) && TimelyThroughout(env, INITIAL, acts)
    requires Owed(env, RunActions(env, INITIAL, acts)) == {}
    ensures Refines(env, RunActions(env, INITIAL, acts).shared)
  {
    StartAgrees(env, ipOf);
    OverlapAgreesIff(env, INITIAL, acts, ipOf);
    AgreeAtEnd(env, INITIAL, acts);
    NothingOwed(env, RunActions(env, INITIAL, acts));
  }

  // ---------------------------------------------------------------- a discipline on schedules

  /** The pod about to be dropped is tracked as it was listed. */
  predicate StillListed(tracked: PodSet, pod: PodInfo) {
    pod.Id() in tracked && tracked[pod.Id()] == pod
  }

  /**
   * Readable off the schedule: no lock section touches an address the other actor owes a job for, a stale
   * pod is still tracked as listed when its removal is submitted and the watcher owes nothing for its
   * address, and the reconciler is not restarted while it owes a job.
   */
  ghost predicate Orderly(env: Env, s: System, a: Action) {
    var w, r := OwedByWatcher(env, s.watcher), OwedByReconciler(env, s.reconciler);
    match a
    case WatchEvent(_) => OwedByWatcher(env, Act(env, s, a).watcher) !! r
    case WatchDeletion(_) => OwedByWatcher(env, Act(env, s, a).watcher) !! r
    case ReconcilerStep =>
      && OwedByReconciler(env, ReconcilerMove(env, s).reconciler) !! w
      && (s.reconciler.Dropping? && s.reconciler.stale != [] ==>
            StillListed(s.shared.tracked, s.reconciler.stale[0]) && s.reconciler.stale[0].WorkerUrl(env.port) !in w)
    case ReconcilerRestart => r == {}
    case _ => true
  }

  ghost predicate OrderlyThroughout(env: Env, s: System, acts: seq<Action>)
    decreases |acts|
  {
    acts != [] ==> Orderly(env, s, acts[0]) && OrderlyThroughout(env, Act(env, s, acts[0]), acts[1..])
  }

  /** No two pods with one address are ever tracked together. */
  ghost predicate DistinctAlong(env: Env, s: System, acts: seq<Action>)
    decreases |acts|
  {
    DistinctIps(s.shared.tracked) && (acts != [] ==> DistinctAlong(env, Act(env, s, acts[0]), acts[1..]))
  }

  /** What a handler's lock section left at the addresses it owes is still there. */
  ghost predicate HandlerKept(env: Env, tracked: PodSet, h: Handler) {
    match h
    case Resting => true
    case Evicting(pod, prior, _) =>
      && StillListed(tracked, pod)
      && (prior.WorkerUrl(env.port) != pod.WorkerUrl(env.port) ==> Vacant(env, tracked, prior.WorkerUrl(env.port)))
    case Adding(pod, _) => StillListed(tracked, pod)
    case RollingBack(_) => false
  }

  ghost predicate WatcherKept(env: Env, st: State, w: Watcher) {
    match w
    case OnEvent(h) => HandlerKept(env, st.tracked, h)
    case OnDeletion(pod) => Vacant(env, st.tracked, pod.WorkerUrl(env.port))
  }

  ghost predicate ReconcilerKept(env: Env, st: State, r: Reconciler) {
    match r
    case DropAccepted(stale, _) =>
      stale != [] && StillListed(st.tracked, stale[0]) && stale[0].WorkerUrl(env.port) !in Registered(st.log)
    case AddingMissing(_, h) => HandlerKept(env, st.tracked, h)
    case _ => true
  }

  ghost predicate Kept(env: Env, s: System) {
    && WatcherKept(env, s.shared, s.watcher) && ReconcilerKept(env, s.shared, s.reconciler)
    && OwedByWatcher(env, s.watcher) !! OwedByReconciler(env, s.reconciler)
  }

  lemma StillListedElsewhere(env: Env, a: State, b: State, pod: PodInfo)
    requires SameAt(env, a, b, pod.WorkerUrl(env.port)) && StillListed(a.tracked, pod)
    ensures StillListed(b.tracked, pod)
  {
    assert Holds(env, a.tracked, pod.Id(), pod.WorkerUrl(env.port));
  }

  /** What is kept stays kept as long as the addresses owed are left alone. */
  lemma HandlerStaysKept(env: Env, a: State, b: State, h: Handler)
    requires HandlerKept(env, a.tracked, h)
    requires forall url :: url in OwedByHandler(env, h) ==> SameAt(env, a, b, url)
    ensures HandlerKept(env, b.tracked, h)
  {
    match h
    case Resting =>
    case Evicting(pod, prior, _) =>
      assert prior.WorkerUrl(env.port) in OwedByHandler(env, h);
      StillListedElsewhere(env, a, b, pod);
    case Adding(pod, _) => StillListedElsewhere(env, a, b, pod);
  }

  lemma WatcherStaysKept(env: Env, a: State, b: State, w: Watcher)
    requires WatcherKept(env, a, w) && forall url :: url in OwedByWatcher(env, w) ==> SameAt(env, a, b, url)
    ensures WatcherKept(env, b, w)
  {
    if w.OnEvent? {
      HandlerStaysKept(env, a, b, w.handler);
    } else {
      assert SameAt(env, a, b, w.pod.WorkerUrl(env.port));
    }
  }

  lemma ReconcilerStaysKept(env: Env, a: State, b: State, r: Reconciler)
    requires ReconcilerKept(env, a, r) && forall url :: url in OwedByReconciler(env, r) ==> SameAt(env, a, b, url)
    ensures ReconcilerKept(env, b, r)
  {
    match r
    case DropAccepted(stale, _) => StillListedElsewhere(env, a, b, stale[0]);
    case AddingMissing(_, h) => HandlerStaysKept(env, a, b, h);
    case _ =>
  }

  lemma OnlyHolder(env: Env, tracked: PodSet, pod: PodInfo)
    requires DistinctIps(tracked) && StillListed(tracked, pod)
    ensures forall k :: Holds(env, tracked, k, pod.WorkerUrl(env.port)) ==> k == pod.Id()
    ensures Holds(env, tracked, pod.Id(), pod.WorkerUrl(env.port))
    ensures Vacant(env, tracked - {pod.Id()}, pod.WorkerUrl(env.port))
  {
    forall k | Holds(env, tracked, k, pod.WorkerUrl(env.port))
      ensures k == pod.Id()
    {
      WorkerUrlInjective(tracked[k], pod, env.port);
    }
    forall k
      ensures !Holds(env, tracked - {pod.Id()}, k, pod.WorkerUrl(env.port))
    {
      if Holds(env, tracked - {pod.Id()}, k, pod.WorkerUrl(env.port)) {
        assert Holds(env, tracked, k, pod.WorkerUrl(env.port));
      }
    }
  }

  lemma EnterKept(env: Env, s: System, pod: PodInfo)
    requires DistinctIps(s.shared.tracked)
    ensures var (next, h) := EnterEvent(s, pod); HandlerKept(env, next.shared.tracked, h)
  {
    if pod.IsHealthy() && pod.Id() !in s.shared.tracked {
      var prior := Evicted(s.shared.tracked, pod);
      if prior.Some? {
        var rest, url := s.shared.tracked - {prior.value}, s.shared.tracked[prior.value].WorkerUrl(env.port);
        OnlyHolder(env, s.shared.tracked, s.shared.tracked[prior.value]);
        var next := rest[pod.Id() := pod];
        assert next == Replace(s.shared.tracked, pod);
        if url != pod.WorkerUrl(env.port) {
          forall k
            ensures !Holds(env, next, k, url)
          {
            assert !Holds(env, rest, k, url);
          }
        }
      }
    }
  }

  lemma HandlerStepKept(env: Env, s: System, h: Handler, others: set<string>)
    requires HandlerKept(env, s.shared.tracked, h) && DistinctIps(s.shared.tracked)
            && env.answer(|s.shared.log|) == Accepted
    ensures var (next, h') := HandlerStep(env, s, h); HandlerKept(env, next.shared.tracked, h')
    ensures OwedByHandler(env, HandlerStep(env, s, h).1) <= OwedByHandler(env, h)
    ensures HandlerTimely(env, s.shared, h, others)
  {
    match h
    case Resting =>
    case Evicting(pod, prior, _) =>
    case Adding(pod, _) => OnlyHolder(env, s.shared.tracked, pod);
  }

  /** An orderly step of the watcher is timely, and leaves what the watcher relies on. */
  lemma WatcherOrderly(env: Env, s: System, a: Action, ipOf: PodId -> string)
    requires Kept(env, s) && Orderly(env, s, a) && Enabled(s, a) && OfWatcher(a)
    requires SystemAtHome(s, ipOf) && ActionAtHome(a, ipOf)
    requires DistinctIps(s.shared.tracked) && env.answer(|s.shared.log|) == Accepted
    ensures Timely(env, s, a)
    ensures WatcherKept(env, Act(env, s, a).shared, Act(env, s, a).watcher)
    ensures OwedByWatcher(env, Act(env, s, a).watcher) !! OwedByReconciler(env, s.reconciler)
  {
    match a
    case WatchEvent(pod) => EnterKept(env, s, pod);
    case WatchDeletion(pod) =>
      if pod.Id() in s.shared.tracked {
        WorkerUrlInjective(pod, s.shared.tracked[pod.Id()], env.port);
        OnlyHolder(env, s.shared.tracked, s.shared.tracked[pod.Id()]);
      }
    case WatcherStep =>
      if s.watcher.OnEvent? {
        HandlerStepKept(env, s, s.watcher.handler, OwedByReconciler(env, s.reconciler));
      }
  }

  lemma WatcherKeeps(env: Env, s: System, a: Action, ipOf: PodId -> string)
    requires Kept(env, s) && Orderly(env, s, a) && Enabled(s, a) && OfWatcher(a)
    requires SystemAtHome(s, ipOf) && ActionAtHome(a, ipOf)
    requires DistinctIps(s.shared.tracked) && env.answer(|s.shared.log|) == Accepted
    ensures Timely(env, s, a) && Kept(env, Act(env, s, a))
  {
    WatcherOrderly(env, s, a, ipOf);
    var next := Act(env, s, a);
    forall url | url in OwedByReconciler(env, s.reconciler)
      ensures SameAt(env, s.shared, next.shared, url)
    {
      WatcherElsewhere(env, s, a, ipOf, url);
    }
    ReconcilerStaysKept(env, s.shared, next.shared, s.reconciler);
  }

  lemma DropOrderly(env: Env, s: System)
    requires Kept(env, s) && Orderly(env, s, ReconcilerStep) && DistinctIps(s.shared.tracked)
    requires env.answer(|s.shared.log|) == Accepted && (s.reconciler.Dropping? || s.reconciler.DropAccepted?)
    ensures Timely(env, s, ReconcilerStep)
    ensures ReconcilerKept(env, ReconcilerMove(env, s).shared, ReconcilerMove(env, s).reconciler)
  {
    var stale := s.reconciler.stale;
    if stale != [] {
      var url := stale[0].WorkerUrl(env.port);
      OnlyHolder(env, s.shared.tracked, stale[0]);
      if s.reconciler.Dropping? {
        RegisteredSnoc(s.shared.log, Submission(RemoveWorker(url), Accepted));
      } else {
        RegisteredIsLatest(s.shared.log, url);
      }
    }
  }

  lemma ReconcilerOrderly(env: Env, s: System)
    requires Kept(env, s) && Orderly(env, s, ReconcilerStep)
    requires DistinctIps(s.shared.tracked) && env.answer(|s.shared.log|) == Accepted
    ensures Timely(env, s, ReconcilerStep)
    ensures ReconcilerKept(env, ReconcilerMove(env, s).shared, ReconcilerMove(env, s).reconciler)
  {
    match s.reconciler
    case Dropping(_, _) => DropOrderly(env, s);
    case DropAccepted(_, _) => DropOrderly(env, s);
    case AddingMissing(missing, h) =>
      if h != Resting {
        HandlerStepKept(env, s, h, OwedByWatcher(env, s.watcher));
      } else if missing != [] {
        EnterKept(env, s, missing[0]);
      }
    case _ =>
  }

  lemma WatcherLeftAlone(env: Env, s: System, ipOf: PodId -> string)
    requires WatcherKept(env, s.shared, s.watcher) && SystemAtHome(s, ipOf)
    requires OwedByWatcher(env, s.watcher) !! OwedByReconciler(env, s.reconciler)
    requires OwedByWatcher(env, s.watcher) !! OwedByReconciler(env, ReconcilerMove(env, s).reconciler)
    ensures WatcherKept(env, ReconcilerMove(env, s).shared, s.watcher) && ReconcilerMove(env, s).watcher == s.watcher
  {
    var next := ReconcilerMove(env, s);
    forall url | url in OwedByWatcher(env, s.watcher)
      ensures SameAt(env, s.shared, next.shared, url)
    {
      ReconcilerElsewhere(env, s, ipOf, url);
    }
    WatcherStaysKept(env, s.shared, next.shared, s.watcher);
  }

  lemma ReconcilerKeeps(env: Env, s: System, ipOf: PodId -> string)
    requires Kept(env, s) && Orderly(env, s, ReconcilerStep) && SystemAtHome(s, ipOf)
    requires DistinctIps(s.shared.tracked) && env.answer(|s.shared.log|) == Accepted
    ensures Timely(env, s, ReconcilerStep) && Kept(env, ReconcilerMove(env, s))
  {
    ReconcilerOrderly(env, s);
    WatcherLeftAlone(env, s, ipOf);
  }

  lemma StepOrderly(env: Env, s: System, a: Action, ipOf: PodId -> string)
    requires Kept(env, s) && Orderly(env, s, a) && Enabled(s, a) && SystemAtHome(s, ipOf) && ActionAtHome(a, ipOf)
    requires DistinctIps(s.shared.tracked) && env.answer(|s.shared.log|) == Accepted
    ensures Timely(env, s, a) && Kept(env, Act(env, s, a))
  {
    if OfWatcher(a) {
      WatcherKeeps(env, s, a, ipOf);
    } else if a.ReconcilerStep? {
      ReconcilerKeeps(env, s, ipOf);
    }
  }

  lemma {:induction false} OrderlyIsTimely(env: Env, s: System, acts: seq<Action>, ipOf: PodId -> string)
    requires Kept(env, s) && OrderlyThroughout(env, s, acts) && Possible(env, s, acts) && DistinctAlong(env, s, acts)
    requires SystemAtHome(s, ipOf) && ActionsAtHome(acts, ipOf) && forall n :: env.answer(n) == Accepted
    ensures TimelyThroughout(env, s, acts)
    decreases |acts|
  {
    if acts == [] {
    } else {
      StepOrderly(env, s, acts[0], ipOf);
      StepAtHome(env, s, acts[0], ipOf);
      OrderlyIsTimely(env, Act(env, s, acts[0]), acts[1..], ipOf);
    }
  }

  /**
   * Overlapping handlers: after every failure-free orderly run, replaying the jobs gives exactly the workers
   * of the tracked pods whenever neither actor owes a job.
   */
  lemma OrderlyRunRefines(env: Env, acts: seq<Action>, ipOf: PodId -> string)
    requires Possible(env, INITIAL, acts) && OrderlyThroughout(env, INITIAL, acts) && DistinctAlong(env, INITIAL, acts)
    requires ActionsAtHome(acts, ipOf) && forall n :: env.answer(n) == Accepted
    requires Owed(env, RunActions(env, INITIAL, acts)) == {}
    ensures Refines(env, RunActions(env, INITIAL, acts).shared)
  {
    StartAgrees(env, ipOf);
    OrderlyIsTimely(env, INITIAL, acts, ipOf);
    TimelyRunRefines(env, acts, ipOf);
  }
}
