# Verified models of the gateway's discovery, streaming and replication logic

This project models, in Dafny, the parts of the gateway whose behaviour is decided by state that several
operations share, and proves what those operations keep over whole runs.

* **Service discovery** (`Pods`, `Discovery`, `Convergence`, `Namesakes`, `Refinement`, `Losses`, `Interleaving`,
  `Overlap`, `Ledger`, `Schedules`, `Workers`, `Listings`, `RouterNodes`, `RouterPods`).
  A watcher and a reconciler keep the set of tracked pods in step with the cluster and submit jobs to the
  worker registry. `Discovery.PodTracker` is the code: a class whose methods change the tracked set and the
  job log step by step. The other modules prove convergence of reconciliation, agreement of the job log with
  the tracked set, what holds over every interleaving of the two actors' lock sections, exactly when
  overlapping handlers keep the job log in step, and what stays wrong once it is. `Workers`, `Listings` and
  `RouterPods` state end to end, on the fields of the cluster's pods, which workers and mesh nodes come of them.
* **Streaming** (`Sse`, `Streams`). The terminal client decodes server-sent events from arbitrarily cut chunks;
  `Streams` states what is shown of every printed stream, on the fields of its documents.
* **The replicated map** (`CrdtView`, `CrdtLog`, `CrdtMap`, `CrdtCluster`, `CrdtCuts`, `CrdtOverflow`, `CrdtClones`,
  `CrdtTies`, `CrdtRace`). Operation logs, merges, compaction, overflow and tombstone collection of the mesh key-value
  map, up to convergence of any number of replicas under reordered, repeated and lost gossip. The steps of a replica in
  `CrdtCluster` and `CrdtCuts` are the contracts of the methods of `CrdtMap.CrdtOrMap`; in `CrdtRace` a merge takes
  many steps, and other calls on the same map come in between.
* **Command line** (`Argv`), **benchmark joins** (`Joins`, `JoinLaws`), **dashboard histories** (`Poller`) and **tenant
  keys** (`Tenant`).

## How the model reads

* A tracked set is a map from identity (pod name and uid) to the stored pod, because the source's set
  compares pods by exactly those two fields and keeps the element it already has.
* The job queue answers the n-th submission with `env.answer(n)`: `Accepted`, `Rejected`, or `NoQueue` when
  the queue has not been set. Every theorem about runs holds for every such sequence of answers unless it
  says otherwise. `Initialised` means that no answer is `NoQueue`.
* Iteration over hash sets is modelled by quantifying over every order (`Enumerates`).
* `Convergence.Gap` is the number of tracked pods that are not live plus the number of healthy live pods that
  are not tracked.
* `Refinement.Refines` says that replaying the accepted jobs in order gives exactly the worker
  specifications of the tracked pods.
* `Overlap.Owed` are the addresses for which an actor has changed the tracked set, or had a removal accepted, and
  has not finished; every other address is settled. `Overlap.AgreesAt` says that the worker registered at an address
  is that of the pods tracked there, `Overlap.AsAsked` the same of the latest job about the address.
* JSON printing and parsing are functions passed in; `Sse.Encodes` states what is assumed of the documents that
  are printed: parsing undoes printing, and a printed document has no line break and no outer whitespace. Of the
  event stream format of sections 9.2.5 and 9.2.6 of the WHATWG HTML Standard the client reads a part, and the
  model follows it: lines end with a line feed, and only lines that start with `data: ` matter.
* A node of the replicated map is its clock, what its metadata and store show, and what its log amounts to. The two
  views agree, up to forgotten tombstones, as long as the log has room for its keys. In `CrdtCuts` a replica knows what
  it wrote and what was in the logs it merged, and `ViewOf` gives the latest of that for each key.
* Timestamps of the replicated map saturate at the largest 64-bit value, as the source's clock does.

Hypotheses that appear in the theorems and hold by the environment rather than by the code: pods tracked at the same
time have different addresses (`DistinctIps`), the address of an identity does not change (`FixedIps`,
`ActionsAtHome`), and the queue is set before discovery starts (`Initialised`). That live pods have different names
(`UniqueNames(live)`) holds when a namespace is configured; without one all namespaces are watched and it can fail,
which is the first point below.

## Where the code falls short of a law

Each of these is stated as an exact condition, with the failing family beside it.

* Eviction compares names and not namespaces. One failure-free cycle closes the gap exactly if no two healthy live
  pods share a name (`SettlesIff`); if two do, no number of cycles closes it, whatever the answers (`NeverSettles`).
  For every live set and every answer `AddStepGap` gives the change of the gap, and `AddStepWidensIff` says when it
  grows: a healthy live namesake is displaced by an addition that is rejected. `CycleBalance`, `AddAllSize` and
  `CountBalance` are the balances of a whole cycle.
* The count of added pods that a reconciliation logs leaves out pods that replace a tracked namesake. It is the
  number of pods added exactly if the queue accepts no addition of a pod with a tracked namesake:
  `AddedCountExact`, `AddedCountFaithful`, `ReplacementNotCounted`.
* With failing submissions, jobs and tracked set agree all along exactly if every step is `Safe`:
  `StepRefinesIff`, `RunRefinesIff`. A rejected removal of a deleted pod leaves a registered worker that
  nothing removes: `RejectedDeletionOrphans`, `OrphanForever`.
* When handlers overlap, jobs and tracked set agree on the settled addresses all along exactly if every step that
  settles an address is `Timely`: `OverlapAgreesIff`. Failure-free runs are timely if they are `Orderly`, a
  condition on the schedule alone (`OrderlyRunRefines`); some overlaps break that discipline without harm
  (`HarmlessOverlap`), so it is sufficient and not necessary. Read off the history of a run, with no such condition:
  jobs and tracked set agree at the end exactly if the last accepted job about every address has the effect of the
  last change there (`ScheduleRefinesIff`). Two families break the law without any failure: a
  deletion between the reconciler's insertion of a pod and its submission leaves a worker behind
  (`OverlapOrphansWorker`), and a restart between a planned removal and its submission leaves a live tracked pod
  without a worker (`OverlapLosesWorker`). Reconciliation compares pods and not workers, so no later run of handlers
  and reconciliations repairs it while the cluster shows the pod and no other of its name or address
  (`NoReconciliationHelps`).
* A prefill entry written without a port takes a following argument that looks like one:
  `CommandLineRoundTrip` holds exactly under `NothingSwallowed`.
* Stream signals share a channel with text: a message survives exactly if it is `Plain`
  (`ReceiveRenderIff`).
* An appended operation log keeps the latest operation of every key exactly while there is room for the keys
  (`Append`, `HasRoom`). Replicas converge as long as every local operation finds room and the clock has not
  reached its end (`SameKnowledgeSameEntries`, `ExchangeConverges`). The writer of a log that overflowed and a peer
  show the same entries after exchanging logs exactly if what was cut adds nothing to what the peer had
  (`OverflowExchangeIff`, `OverflowLosesKey`); after any number of cuts they do exactly if what they receive from each
  other reads the same where either shows other than it logs (`CutExchangeIff`). `ExchangeDiverges` drives two maps
  there. The source's comment expects dropped keys to return from peers; the model follows the code.
* A removal whose tombstone was collected and whose log entry was cut is undone by a peer that still logs the older
  insertion. A replica reads the latest operation it knows of a key throughout a run, with any number of cuts, exactly
  if no merge undoes a removal in this way (`CutRunsReadLatestIff`); without such merges replicas of equal knowledge
  still show the same entries (`CutRunsConverge`). `OverflowReadsLatestIff` is the same for one overflow and exchange,
  `RemovalUndone` its failing family, and `RemovalReturns` drives two maps there.
* The log lock is released before a merge applies what was new. However merges, local writes and collections
  interleave, a key is shown as logged or has its latest operation pending, exactly if no application is overtaken by a
  later removal that left no tombstone (`InterleavedMergesIff`). Merges one at a time never are (`CalmRunsSettle`); two
  at a time can be, and then show an entry that the log says was removed (`MergesOvertake`).
* Merging keeps every operation exactly if no operation of the other log is `Shadowed`: stands behind a different one
  of its version, in the local log or earlier in its own (`MergedAllIff`). Handles cloned from one replica copy its
  clock and repeat versions, and so does a clock at its end. Both operations are then shown and logged, and no peer
  comes to show both (`TwoUnderOneStamp`, `AtMostOneTaken`, `PeerShowsOne`, `ClonesDisagree`). One handle per replica
  and a clock short of its end rule this out (`DeliveriesMergeable`).
* Benchmark groups are keyed by joined text. The comparisons are the relational join if and only if no two
  experiments of different groups meet under one key and no experiment of the join is overwritten by one of another
  group (`ComparisonsAreJoinIff`); the two kinds of damage are `ForeignPairReported` and `ShadowedPairLost`, and
  names without a bar rule out both (`BarFreeKeysFaithful`, `FaithfulKeysJoin`).
* A tenant key can be named by an administrator as it is exactly if it is not empty and has no outer
  whitespace (`AdminReachesIff`).

## Model

| member | source | states |
|---|---|---|
| `Pods.WorkerUrlInjective` | model_gateway/src/service_discovery.rs:323-326 | two pods have the same worker URL exactly if they have the same address |
| `Pods.ListSelectorSound` | model_gateway/src/service_discovery.rs:115-130 | the label filter sent to the API server passes every pod that the selectors include, in both modes |
| `Pods.ListSelectorStrongest` | model_gateway/src/service_discovery.rs:115-130 | with non-empty selectors, a conjunction of labels is sound exactly if the filter sent implies it |
| `Pods.LiveSetCharacterised` | model_gateway/src/service_discovery.rs:833-847 | an identity is live exactly if some listed pod is included, converts and has it, and carries the first such entry |
| `Pods.BuildLivePodSet` | model_gateway/src/service_discovery.rs:833-847 | the loop over the listed pods builds that live set; `Listings` says what is read from a pod |
| `Pods.SoundFilterLosesNothing` | model_gateway/src/service_discovery.rs:205-220 | under any sound server-side filter the live set is that of the unfiltered list |
| `Pods.ServerFilterLosesNothing` | model_gateway/src/service_discovery.rs:884-901 | the filter that is sent loses nothing, for every configuration and pod list |
| `Discovery.PodTracker.constructor` | model_gateway/src/service_discovery.rs:400 | tracking starts empty, with nothing submitted |
| `Discovery.PodTracker.SubmitJob` | model_gateway/src/workflow/job_queue.rs:217-252 | a submission is one more entry of the log with the queue's answer, and changes nothing else |
| `Discovery.PodTracker.FindRestarted` | model_gateway/src/service_discovery.rs:609-632 | the search for an older pod of the same name finds one exactly if there is one, and then the only one |
| `Discovery.PodTracker.HandlePodEvent` | model_gateway/src/service_discovery.rs:596-762 | swap under the lock, removal of the predecessor, addition, rollback on rejection: the new state is `HandleEvent`, and names stay unique |
| `Discovery.PodTracker.HandlePodDeletion` | model_gateway/src/service_discovery.rs:764-829 | a tracked pod is dropped and its removal submitted whatever the answer; an untracked one changes nothing |
| `Discovery.ComputeReconciliationDiff` | model_gateway/src/service_discovery.rs:854-865 | lists exactly the tracked pods that are not live and the healthy live pods that are not tracked, each once |
| `Discovery.PodTracker.DropStalePods` | model_gateway/src/service_discovery.rs:927-970 | stale pods are dropped one by one, each only if its removal was accepted |
| `Discovery.PodTracker.AddMissingPods` | model_gateway/src/service_discovery.rs:973-988 | missing pods go through the event handler, and the count rises where the tracked set grew |
| `Discovery.PodTracker.ReconcilePods` | model_gateway/src/service_discovery.rs:876-1015 | a failed list changes nothing; otherwise the cycle works on the differences to the live set of the whole cluster, although only the filtered list was read |
| `Discovery.EventKeepsUniqueNames` | model_gateway/src/service_discovery.rs:618-631 | handling any event keeps names unique, under every answer |
| `Discovery.EvictedUnique` | model_gateway/src/service_discovery.rs:618-626 | with unique names at most one tracked pod is the predecessor of a restarted one |
| `Convergence.CycleProgress` | model_gateway/src/service_discovery.rs:915-988 | when live names differ, under any failures the gap never grows, stays only if every submission of the cycle was rejected and nothing was evicted, is zero exactly at the early return, and no live tracked pod is dropped |
| `Convergence.BoundedConvergence` | model_gateway/src/service_discovery.rs:876-1015 | against a steady cluster, as many productive cycles as the gap is wide close it |
| `Convergence.SelfStabilises` | model_gateway/src/service_discovery.rs:876-1015 | when live names differ, from any tracked set one failure-free cycle leaves exactly the live pods that were tracked or are healthy, with one removal per stale pod, one addition per missing pod, no eviction, and all additions counted |
| `Convergence.SecondCycleSilent` | model_gateway/src/service_discovery.rs:915-918 | the next cycle over the same live set submits nothing |
| `Convergence.AddedCountExact` | model_gateway/src/service_discovery.rs:973-988 | the logged count is the number of missing pods that end up tracked and had no tracked namesake |
| `Convergence.AddedIffAccepted` | model_gateway/src/service_discovery.rs:973-988 | the i-th missing pod ends up tracked exactly if the queue accepts at an answer whose index is computed from the tracked set before the cycle |
| `Convergence.AddedCountFaithful` | model_gateway/src/service_discovery.rs:973-988 | the count is the number of pods added exactly if no addition of a pod with a tracked namesake will be accepted |
| `Convergence.ReplacementNotCounted` | model_gateway/src/service_discovery.rs:980-988 | every accepted restart over a still tracked predecessor is added and counted as nothing |
| `Namesakes.AddStepGap` | model_gateway/src/service_discovery.rs:600-762 | for every live set and answer, an addition narrows the gap by the pod it tracks and by a predecessor that was not live, and widens it by a healthy live pod it displaces |
| `Namesakes.AddStepWidensIff` | model_gateway/src/service_discovery.rs:620-632 | it widens the gap exactly if it displaces a healthy live pod and is rejected |
| `Namesakes.SettlesIff` | model_gateway/src/service_discovery.rs:876-1015 | for every live set, one failure-free cycle closes the gap exactly if no two healthy live pods share a name |
| `Namesakes.NamesakesLeaveGap` | model_gateway/src/service_discovery.rs:620-632 | two healthy live namesakes leave a gap in every tracked set of distinct names, which the tracker's always is |
| `Namesakes.NeverSettles` | model_gateway/src/service_discovery.rs:876-1015 | with healthy live namesakes no number of cycles, under any answers, closes the gap |
| `Namesakes.SecondCycleSilentIff` | model_gateway/src/service_discovery.rs:915-918 | for every live set, the cycle after a failure-free one submits nothing exactly if no two healthy live pods share a name |
| `Namesakes.CycleBalance` | model_gateway/src/service_discovery.rs:920-988 | for every live set and every answer, a cycle narrows the gap by what it drops, adds and clears, and widens it by the healthy live pods it displaces |
| `Namesakes.AddAllSize` | model_gateway/src/service_discovery.rs:620-747 | the tracked set grows by the additions less the namesakes they evict, also those whose addition is rejected |
| `Namesakes.CountBalance` | model_gateway/src/service_discovery.rs:973-988 | for every live set, the logged count and the pods added in the place of a tracked namesake make up the pods added |
| `Refinement.DeleteRefinesIff` | model_gateway/src/service_discovery.rs:764-829 | a deletion keeps jobs and tracking in step exactly if its pod is untracked, or its removal is accepted for the address it was added with |
| `Refinement.PlainAddRefinesIff` | model_gateway/src/service_discovery.rs:702-747 | adding a pod with no predecessor keeps them in step exactly unless there is no queue |
| `Refinement.RestartRefinesIff` | model_gateway/src/service_discovery.rs:635-747 | a restart keeps them in step exactly under the stated combinations of the two answers, address and specification |
| `Refinement.DropRefines` | model_gateway/src/service_discovery.rs:940-943 | dropping a stale pod only after an accepted removal always keeps them in step |
| `Refinement.StepRefinesIff` | model_gateway/src/service_discovery.rs:596-829 | from a state in step, any handler leads to one in step exactly if it is safe |
| `Refinement.RunRefinesIff` | model_gateway/src/service_discovery.rs:596-1015 | over any run with any failures they agree all along exactly if every step is safe |
| `Refinement.RunExpandAll` | model_gateway/src/service_discovery.rs:876-1015 | a run of whole handlers and reconciliations is the run of its single steps |
| `Refinement.JobLogRefinement` | model_gateway/src/service_discovery.rs:596-1015 | after any failure-free run of events, deletions and reconciliations, replaying the jobs gives exactly the workers of the tracked pods |
| `Workers.RegistryIsLast` | model_gateway/src/service_discovery.rs:635-753 | a worker is registered exactly if its addition was accepted and nothing about its address was accepted after |
| `Workers.WorkersServePods` | model_gateway/src/service_discovery.rs:655-690 | after every failure-free run each tracked pod has a worker at its address, for its model, in PD mode in its role with the bootstrap port of a prefill pod only, outside it regular; and there are no other workers |
| `Workers.EventSubmits` | model_gateway/src/service_discovery.rs:596-747 | an event of a pod that is ready, running and untracked submits the addition of that worker, after the removal of a tracked namesake's; any other event submits nothing |
| `Workers.AdditionsServe` | model_gateway/src/service_discovery.rs:655-690 | over every interleaving with any answers, every submitted worker is that of a pod inserted before |
| `Text.ParsedIff` | model_gateway/src/service_discovery.rs:262-269 | an annotation is read as a port exactly if it is a number below 65536, with zeros or a plus sign in front |
| `Listings.HealthyIs` | model_gateway/src/service_discovery.rs:237-246 | a listed pod counts as healthy exactly if its phase is Running and it has a condition Ready with status True |
| `Listings.AskedIffServes` | model_gateway/src/service_discovery.rs:223-319 | the worker for what was read from a pod is the one its labels, annotations and address ask for: prefill before decode, the annotated port, the model by namespace, label or annotation |
| `Listings.CycleAsks` | model_gateway/src/service_discovery.rs:833-988 | from any tracked set and under any answers, a cycle asks for exactly the workers of the first listed pod of each untracked identity that its labels choose, is not being deleted, is running and ready |
| `Listings.ReconcileList` | model_gateway/src/service_discovery.rs:876-1015 | the reconciliation method does so |
| `Losses.RejectedDeletionOrphans` | model_gateway/src/service_discovery.rs:781-829 | every rejected removal of a deleted pod leaves its worker registered and untracked |
| `Losses.OrphanForever` | model_gateway/src/service_discovery.rs:854-865 | no later handler or reconciliation removes that worker unless a pod shows that address again |
| `Losses.LostForever` | model_gateway/src/service_discovery.rs:596-762 | a tracked pod without a worker keeps none over every run of handler calls that neither drop it nor show a namesake or another pod at its address |
| `Losses.NoReconciliationHelps` | model_gateway/src/service_discovery.rs:849-988 | nor do whole reconciliations help, under any answers, whose lists show the pod and no other of its name or address |
| `Interleaving.InvariantThroughout` | model_gateway/src/service_discovery.rs:541-566 | every action of watcher or reconciler, a restart of the reconciler among them, keeps the joint invariant of tracked set, history and job log |
| `Interleaving.NamesStayUnique` | model_gateway/src/service_discovery.rs:609-632 | over every interleaving no two tracked pods share a name |
| `Interleaving.InsertionsBalance` | model_gateway/src/service_discovery.rs:735-746 | over every interleaving, insertions minus effective removals of an identity is one if it is tracked, else zero |
| `Interleaving.LogIsHistory` | model_gateway/src/service_discovery.rs:635-753 | over every interleaving the job log is what the history of submissions records, in order |
| `Interleaving.AdditionHasInsertion` | model_gateway/src/service_discovery.rs:618-631 | over every interleaving each submitted addition has an earlier insertion of its pod that no other addition shares |
| `Interleaving.OneAdditionPerEpisode` | model_gateway/src/service_discovery.rs:618-631 | between the insertions behind two additions of one identity it was removed |
| `Schedules.UndisturbedEvent` | model_gateway/src/service_discovery.rs:596-762 | lock sections and submissions run without interruption are the event handler |
| `Schedules.UndisturbedDeletion` | model_gateway/src/service_discovery.rs:764-829 | the same for the deletion handler |
| `Schedules.UndisturbedReconciliation` | model_gateway/src/service_discovery.rs:876-1015 | listing, difference and as many reconciler steps as it takes, uninterrupted, are the reconciliation function |
| `Schedules.CommandsAreSchedules` | model_gateway/src/service_discovery.rs:541-566 | every legal run of whole handlers and reconciliations is a schedule of the two actors with the same tracked set and job log |
| `Overlap.RefinesIffAgrees` | model_gateway/src/service_discovery.rs:635-753 | jobs and tracking are in step exactly if they agree at every address |
| `Overlap.RegisteredIsLatest` | model_gateway/src/service_discovery.rs:635-753 | what is registered at an address is what the last accepted job about it says |
| `Overlap.AgreesIffAsked` | model_gateway/src/service_discovery.rs:635-753 | jobs and tracking agree at an address exactly if what is tracked there is what the latest job about it asked for |
| `Overlap.StepAgreesIff` | model_gateway/src/service_discovery.rs:596-1015 | from agreement on the settled addresses, any action of either actor, under any answer, leads to it exactly if the action is timely |
| `Overlap.OverlapAgreesIff` | model_gateway/src/service_discovery.rs:596-1015 | over every interleaving with any failures, jobs and tracking agree on the settled addresses all along exactly if every action is timely |
| `Overlap.TimelyRunRefines` | model_gateway/src/service_discovery.rs:596-1015 | after a timely run the jobs are exactly those of the tracked pods whenever neither actor owes one |
| `Overlap.OrderlyRunRefines` | model_gateway/src/service_discovery.rs:596-1015 | so they are after every failure-free run in which no lock section touches an address the other actor owes, stale pods are still tracked as listed when removed, and the reconciler is not restarted while it owes a job |
| `Ledger.RunTallies` | model_gateway/src/service_discovery.rs:596-1015 | over every interleaving the tracked set is what replaying the recorded insertions and removals gives |
| `Ledger.LastChangeLeft` | model_gateway/src/service_discovery.rs:596-1015 | whoever is tracked at an address is who the last recorded change there left |
| `Ledger.ScheduleRefinesIff` | model_gateway/src/service_discovery.rs:596-1015 | after every interleaving with any failures, jobs and tracked set are in step exactly if at every address the last accepted job in the history has the effect of the last change |
| `Schedules.OverlapOrphansWorker` | model_gateway/src/service_discovery.rs:764-829 | for every healthy pod there is a failure-free interleaving from the start that leaves its worker registered and untracked |
| `Schedules.OverlapLosesWorker` | model_gateway/src/service_discovery.rs:927-943 | for every two healthy pods of one name and address there is a failure-free interleaving that leaves the second tracked and without a worker, for every later run in which the cluster shows it and no other pod of its name or address |
| `Schedules.HarmlessOverlap` | model_gateway/src/service_discovery.rs:764-829 | the same overlap as in the first, with submissions in the order of the lock sections, is not orderly, and ends in step with nothing owed |
| `RouterNodes.ClusterState.OnEvent` | model_gateway/src/service_discovery.rs:1064-1119 | the map is the replay of all events handled so far |
| `RouterNodes.NodeFromHistory` | model_gateway/src/service_discovery.rs:1064-1119 | after any events a node is there exactly if it was once healthy; its address is that of its last healthy event; it is Down if a deletion followed, else Suspected if unhealthy since, else Alive; its version counts the effective events |
| `RouterNodes.VersionsGrow` | model_gateway/src/service_discovery.rs:1064-1119 | nodes are never removed and versions never decrease |
| `RouterPods.NodesFromPods` | model_gateway/src/service_discovery.rs:1041-1119 | after any watched pods a node is there exactly if a pod with the router labels was once up under its name; its address is that pod's IP with the annotated or else the default port; its status follows from the pods seen since |
| `RouterPods.WatchRouters` | model_gateway/src/service_discovery.rs:1041-1119 | the cluster map after watching the pods is that of their events |
| `Backoff.RetryDelay` | model_gateway/src/service_discovery.rs:569-582 | after any mix of errors and resets the delay is the power of two of the current error streak, capped at 300, so between 1 and 300 |
| `Backoff.DelayGrows` | model_gateway/src/service_discovery.rs:569-582 | while attempts fail the delay never falls, and nine failures in a row take it to 300; a success resets it to 1 |
| `Sse.Drain` | tui/src/chat.rs:213-240 | handling the complete lines of the buffer leaves the meaning of buffer and coming text unchanged, up to what was sent |
| `Sse.DecodeStream` | tui/src/chat.rs:198-243 | for every way of cutting a text into chunks, with or without a transport error at the end, what is sent is a one-pass decoding of the text's complete lines |
| `Sse.TailIgnored` | tui/src/chat.rs:198-243 | an unterminated tail of a text never counts |
| `Sse.ProcessSseStream` | tui/src/chat.rs:198-243 | the chat stream loop is that decoding with the chat line handler |
| `Sse.StreamChatCompletions` | tui/src/chat.rs:55-76 | a failed request sends its error; an opened one is streamed |
| `Sse.StreamResponses` | tui/src/chat.rs:116-196 | a failed request sends its error; otherwise the loop is that decoding with the Responses handler, which remembers whether deltas came |
| `Sse.ChatEndsOnce` | tui/src/chat.rs:55-76 | every chat request, failed or opened, sends exactly one terminal message, as its last |
| `Sse.ResponsesEndsOnce` | tui/src/chat.rs:116-196 | every Responses request, failed or opened, sends exactly one terminal message, as its last |
| `Sse.ResponsesText` | tui/src/chat.rs:124-196 | the text shown is that of the deltas, or if there were none that of the completed event, never both |
| `Sse.PrintedDecodes` | tui/src/chat.rs:198-243 | any printed sequence of error-free frames that JSON encodes faithfully decodes to their contents in order and one done signal |
| `Streams.ShowChat` | tui/src/chat.rs:198-243 | for every list of printed lines, padded with whitespace or holding no document, and every chunking: the contents are sent in order up to the first error, which is the last message; without one it is done at the marker or the end, or what broke the stream |
| `Streams.ShowResponses` | tui/src/chat.rs:124-196 | likewise for a Responses stream: identifiers and deltas in order, then the texts of the finished response exactly if no delta was sent, then one last message |
| `Sse.MockFramesContents` | scripts/mock_worker.py:97-128 | the mock worker's frames are free of errors and carry an empty first delta in place of the first word, then each further word with a space |
| `Streams.MockFrameAt` | scripts/mock_worker.py:97-128 | every frame by its place: the role with an empty word, a word with a space, or the end with its reason and usage |
| `Sse.MockWorkerRoundTrip` | scripts/mock_worker.py:67-131 | what the mock worker streams, cut in any way, is decoded to exactly an empty text, every word but the first with its space, and one done signal |
| `Sse.ReceiveRenderIff` | tui/src/app.rs:208-227 | a message sent over the text channel is received as itself exactly if it is plain |
| `Sse.StripOnce` | tui/src/app.rs:212-217 | stripping a signal's prefix as often as it repeats gives the payload exactly if the payload does not start with it |
| `Argv.ParsePrefillArgs` | model_gateway/src/main.rs:23-52 | the extracting loop visits the starts of the tokens and returns their entries |
| `Argv.FilterArgs` | model_gateway/src/main.rs:1393-1410 | the filtering loop visits the same indices and returns the other arguments |
| `Argv.ScannersPartition` | model_gateway/src/main.rs:1393-1410 | one list of tokens is the command line in order, and its groups and its plain tokens are the results of the two loops |
| `Argv.FilteringIsFinal` | model_gateway/src/main.rs:1393-1410 | the flag survives only as a final lone argument; filtering again changes nothing and nothing is left to extract |
| `Argv.RustReadsPorts` | model_gateway/src/main.rs:31-43 | every port is read back as written, and `none` in lower case as no port |
| `Argv.RustPortArgIff` | model_gateway/src/main.rs:31-43 | an argument counts as a port exactly if it is a number below 65536, with zeros or a plus sign in front or not, or the word none in any capitals |
| `Argv.CommandLineRoundTrip` | model_gateway/src/main.rs:23-52 | entries written among other arguments are scanned back exactly, and so are the other arguments, if and only if no bare entry stands before something like a port |
| `CrdtView.VersionsTotal` | crates/mesh/src/crdt_kv/crdt.rs:67-78 | versions, a timestamp and then a replica, are totally ordered |
| `CrdtView.LatestIsView` | crates/mesh/src/crdt_kv/operation.rs:162-179 | folding a log in any order gives each key its latest operation, when no version names two operations |
| `CrdtView.ViewUnique` | crates/mesh/src/crdt_kv/operation.rs:162-179 | that view is determined by the set of operations alone |
| `CrdtView.JoinIsView` | crates/mesh/src/crdt_kv/operation.rs:240-253 | joining two views gives the view of all their operations |
| `CrdtView.JoinCommutes` | crates/mesh/src/crdt_kv/crdt.rs:440-477 | joining is commutative on coherent views |
| `CrdtView.JoinAssociates` | crates/mesh/src/crdt_kv/crdt.rs:440-477 | joining is associative |
| `CrdtView.JoinIdempotent` | crates/mesh/src/crdt_kv/crdt.rs:440-477 | joining a view with itself changes nothing |
| `CrdtLog.LatestOperationsByKey` | crates/mesh/src/crdt_kv/operation.rs:162-179 | the loop computes the view of the log |
| `CrdtLog.Compact` | crates/mesh/src/crdt_kv/operation.rs:187-194 | compaction keeps exactly the latest operation of every key, each once, sorted by version |
| `CrdtLog.Append` | crates/mesh/src/crdt_kv/operation.rs:114-135 | appending invents no operation; the log amounts to everything exactly if there is room for the keys, and otherwise to the latest 7,500 operations |
| `CrdtLog.MergeLogs` | crates/mesh/src/crdt_kv/operation.rs:240-253 | merging appends the operations whose version has not been seen by then, for all logs |
| `CrdtLog.MergedAllIff` | crates/mesh/src/crdt_kv/operation.rs:236-253 | merging keeps every operation exactly if none of the other log stands behind a different one of its version, in the local log or earlier in its own |
| `CrdtLog.MergedView` | crates/mesh/src/crdt_kv/operation.rs:240-253 | then the merged log amounts to the join of the two views |
| `CrdtMap.StoreIsContents` | crates/mesh/src/crdt_kv/crdt.rs:82-90 | the store is exactly the contents of what metadata and store show |
| `CrdtMap.FreshIsNew` | crates/mesh/src/crdt_kv/crdt.rs:447-468 | with one operation per version, unseen by version is new to the view |
| `CrdtMap.CrdtOrMap.constructor` | crates/mesh/src/crdt_kv/crdt.rs:98-108 | a new replica is the empty node |
| `CrdtMap.CrdtOrMap.Tick` | crates/mesh/src/crdt_kv/replica.rs:65-80 | the clock advances by one and saturates |
| `CrdtMap.CrdtOrMap.Witness` | crates/mesh/src/crdt_kv/replica.rs:82-97 | after a remote timestamp the clock is one past the later of the two, or at its end |
| `CrdtMap.CrdtOrMap.RecordInsert` | crates/mesh/src/crdt_kv/crdt.rs:514-547 | an insertion is applied exactly if it is later than what is recorded, which it then replaces |
| `CrdtMap.CrdtOrMap.RecordRemove` | crates/mesh/src/crdt_kv/crdt.rs:564-600 | a removal is applied exactly if nothing later and not the same tombstone is recorded, or if only the store knows the key |
| `CrdtMap.CrdtOrMap.ApplyOperation` | crates/mesh/src/crdt_kv/crdt.rs:416-436 | any operation is shown exactly if it is recorded, and touches no other key |
| `CrdtMap.CrdtOrMap.InsertEntry` | crates/mesh/src/crdt_kv/crdt.rs:139-169 | in every valid state, also at the end of the clock and when the log overflows, a local insertion is the step `Writes` of its node and returns the previous value |
| `CrdtMap.CrdtOrMap.RemoveEntry` | crates/mesh/src/crdt_kv/crdt.rs:287-309 | the same for a local removal, which returns a value exactly if it removed one |
| `CrdtMap.CrdtOrMap.Merge` | crates/mesh/src/crdt_kv/crdt.rs:440-477 | for every log, the merged log and what is shown after it; for logs with one operation per version this is the step `Merges`, the join of the two views, in every valid state |
| `CrdtTies.WriteBoth` | crates/mesh/src/crdt_kv/crdt.rs:67-77 | two maps insert at one key and exchange logs: both then hold the value of the one whose clock was ahead, and of equal clocks that of the higher replica |
| `CrdtMap.CrdtOrMap.GcTombstones` | crates/mesh/src/crdt_kv/crdt.rs:365-408 | collection forgets exactly the expired tombstones and counts them |
| `CrdtCluster.RunKeeps` | crates/mesh/src/crdt_kv/crdt.rs:440-477 | over any run of local operations with room and clock, collections, sends and deliveries every replica shows and logs what it knows, and no version was used twice |
| `CrdtCluster.DeliveriesMergeable` | crates/mesh/src/crdt_kv/operation.rs:236-240 | the uniqueness of operation identities that merging relies on holds in every state so reached |
| `CrdtCluster.SameKnowledgeSameEntries` | crates/mesh/src/crdt_kv/crdt.rs:440-477 | there, replicas that know the same operations show the same entries |
| `CrdtCluster.ReadsAreLatest` | crates/mesh/src/crdt_kv/crdt.rs:440-477 | there, what a replica shows for a key is the effect of the latest operation it knows |
| `CrdtCluster.ExchangeConverges` | crates/mesh/src/crdt_kv/crdt.rs:440-487 | there, two replicas that merge the same snapshots one after the other, in any order and with any repetition, show the same entries |
| `CrdtCluster.OverflowExchangeIff` | crates/mesh/src/crdt_kv/operation.rs:114-135 | a replica writes without room and exchanges logs with any peer: they show the same entries exactly if at every key that was cut the writer adds nothing for readers to what the peer had |
| `CrdtCluster.OverflowLosesKey` | crates/mesh/src/crdt_kv/operation.rs:114-135 | a live key that was cut and that the peer does not have stays with the writer and is missing at the peer after the exchange |
| `CrdtCluster.OverflowReadsLatestIff` | crates/mesh/src/crdt_kv/operation.rs:114-135 | after that exchange the writer reads at every key the latest operation that either knew, exactly if it is not a cut key whose tombstone was collected while the peer logs an insertion from before the removal |
| `CrdtCluster.RemovalUndone` | crates/mesh/src/crdt_kv/crdt.rs:359-408 | in that case an entry is shown again although both knew of its removal |
| `CrdtCuts.EndSound` | crates/mesh/src/crdt_kv/operation.rs:114-135 | over any run with any number of cuts every replica shows and logs only operations it knows, and no version was used twice |
| `CrdtCuts.CutRunsReadLatestIff` | crates/mesh/src/crdt_kv/crdt.rs:440-477 | over every such run, a replica reads the latest operation it knows of a key at every point exactly if no merge undoes a removal of that key |
| `CrdtCuts.UndoneWasCut` | crates/mesh/src/crdt_kv/crdt.rs:359-408 | what a merge can undo is a removal that is no longer in the log |
| `CrdtCuts.CutRunsConverge` | crates/mesh/src/crdt_kv/crdt.rs:440-477 | replicas that know the same operations show the same entries if neither had a removal undone |
| `CrdtCuts.CutExchangeIff` | crates/mesh/src/crdt_kv/crdt.rs:440-487 | after any such run two replicas that exchange logs show the same entries exactly if, at the keys where either shows other than it logs, what they receive from each other reads the same |
| `CrdtCuts.InsertArrives` | crates/mesh/src/crdt_kv/crdt.rs:440-477 | in both kinds of cluster there is a run in which what one replica inserts is read at another |
| `CrdtOverflow.ExchangeBoth` | crates/mesh/src/crdt_kv/crdt.rs:481-484 | a map that sends its log to an empty one and merges it back keeps its store, and the other has no key its log had not, and with one operation per version exactly what that log amounts to |
| `CrdtOverflow.ExchangeDiverges` | crates/mesh/src/crdt_kv/operation.rs:114-135 | a map with one key more than 10,000 still has all of them after exchanging logs with an empty map, which has exactly 7,500 |
| `CrdtOverflow.RemovalReturns` | crates/mesh/src/crdt_kv/crdt.rs:287-309 | for every key and value, a map inserts an entry, lets a peer merge it, removes it, collects the tombstone and fills its log: the entry is gone, and merging the peer's log brings it back |
| `CrdtClones.TwoUnderOneStamp` | crates/mesh/src/crdt_kv/replica.rs:48-54 | two insertions through clocks that give one stamp: at one key the second is ignored, at two keys both are shown and logged under one version, even if the log is cut |
| `CrdtClones.AtMostOneTaken` | crates/mesh/src/crdt_kv/operation.rs:236-253 | of two different operations with one unseen version a merge takes at most one, wherever they stand in the other log |
| `CrdtClones.PeerShowsOne` | crates/mesh/src/crdt_kv/crdt.rs:440-477 | no peer that has not seen the stamp comes to show both of those insertions by merging the log |
| `CrdtClones.ClonesDisagree` | crates/mesh/src/crdt_kv/replica.rs:48-54 | two clones of any replica insert at two keys: the replica shows both, and a peer that knew neither key and merges its log shows at most one |
| `CrdtRace.UndisturbedMerge` | crates/mesh/src/crdt_kv/crdt.rs:440-477 | the steps of a merge with nothing in between end with the log and the entries of the atomic merge |
| `CrdtRace.CourseIff` | crates/mesh/src/crdt_kv/crdt.rs:440-477 | every step of merges, local writes, the clock and collections keeps a key shown as logged or with its latest operation pending, except an application that is overtaken by a forgotten removal |
| `CrdtRace.InterleavedMergesIff` | crates/mesh/src/crdt_kv/crdt.rs:440-477 | so over every interleaving a key stays on course exactly if no application is overtaken |
| `CrdtRace.SettledReads` | crates/mesh/src/crdt_kv/crdt.rs:440-477 | once nothing is pending, readers then see what the log amounts to |
| `CrdtRace.CalmRunsSettle` | crates/mesh/src/crdt_kv/crdt.rs:440-477 | this holds for merges one at a time with local writes at any point in between |
| `CrdtRace.MergesOvertake` | crates/mesh/src/crdt_kv/crdt.rs:564-600 | in every state that knows nothing of a key, two overlapping merges of an insertion and its removal can end with the entry shown and its removal logged |
| `Joins.MatchRuns` | e2e_test/benchmarks/nightly_summarize.py:374-390 | the indexed lookup pairs each run with the last run of its setup on the other side |
| `Joins.GroupExperiments` | e2e_test/benchmarks/nightly_summarize.py:362-364 | keys come in the order of their first experiment, and a group holds the last experiment of every name |
| `Joins.SortedNames` | e2e_test/benchmarks/nightly_summarize.py:406 | the sorted runtimes are the group's runtimes, each once, in increasing order |
| `Joins.BuildComparisons` | e2e_test/benchmarks/nightly_summarize.py:360-391 | the protocol comparisons are, in order, those found by searching the experiments directly |
| `Joins.BuildRuntimeComparisons` | e2e_test/benchmarks/nightly_summarize.py:394-430 | the runtime comparisons are, in order, those of each pair of runtimes above the diagonal |
| `JoinLaws.ComparisonsCount` | e2e_test/benchmarks/nightly_summarize.py:360-430 | for all experiments, a comparison is reported as often as its run occurs in the first experiment if both sides are the last experiments of their key and name, share the key, stand in the right order, and the runs are error-free, of one setup, the second the last of it; otherwise never |
| `JoinLaws.ComparisonsByKey` | e2e_test/benchmarks/nightly_summarize.py:360-430 | so it is reported at all exactly under that condition |
| `JoinLaws.ComparisonsAreJoinIff` | e2e_test/benchmarks/nightly_summarize.py:360-430 | for all experiments, the comparisons are the relational join if and only if no pair of different groups meets under one key and no experiment of the join is overwritten |
| `JoinLaws.ForeignPairReported` | e2e_test/benchmarks/nightly_summarize.py:360-430 | a comparison is reported outside the join exactly if its sides share a key and not a group |
| `JoinLaws.ShadowedPairLost` | e2e_test/benchmarks/nightly_summarize.py:360-430 | a comparison of the join is missing exactly if one of its sides was overwritten in its group |
| `JoinLaws.FaithfulKeysJoin` | e2e_test/benchmarks/nightly_summarize.py:360-430 | when different groups have different keys the comparisons are the join |
| `JoinLaws.BarFreeKeysFaithful` | e2e_test/benchmarks/nightly_summarize.py:157-159 | keys tell groups apart when their first two parts contain no bar |
| `Poller.GatewayState.PollOnce` | tui/src/state.rs:411-487 | a failed read changes nothing; after a successful one every history is the last 20 rates of all samples read, the throughput history equals the request history, every worker has the rate of its latest two consecutive reports, and gauges and circuit breakers are those last read |
| `Poller.UpdateWorkers` | tui/src/state.rs:477-486 | workers in both samples get their new rate, others keep theirs |
| `Poller.HistoriesAligned` | tui/src/state.rs:349-470 | after n reads the four histories all have length min(n - 1, 20) |
| `Poller.HistoryAt` | tui/src/state.rs:349-470 | the i-th value of each history, by index into the samples: the rise of its counter over the interval, none if it fell, and the mean duration of the requests finished in between; 20 values at most, oldest first |
| `Poller.RatesCoverChange` | tui/src/state.rs:415-430 | the request rates add up to at least the net change of the counter per interval, and to exactly that if and only if the counter never drops |
| `Poller.GainedMinusLost` | tui/src/state.rs:415-417 | what saturating differences count exceeds the net change by exactly what drops lost |
| `Tenant.AuthenticatedKey` | model_gateway/src/tenant.rs:154-164 | the loop writes the key of the hexadecimal digest, 69 characters for 32 bytes |
| `Tenant.HexRoundTrip` | model_gateway/src/tenant.rs:159-162 | the digest can be read back from its key |
| `Tenant.IntoKeyIff` | model_gateway/src/tenant.rs:20-32 | identities that are not explicit have the same key exactly if they are equal or are addresses displayed alike |
| `Tenant.KeyReadsBack` | model_gateway/src/tenant.rs:20-32 | the prefix of a key tells whether it names a credential, a header, an address or nobody, and the rest is the identity |
| `Tenant.AdminReachesDigest` | model_gateway/src/tenant.rs:166-177 | naming a digest's key, with any surrounding whitespace, resolves to that key |
| `Tenant.AdminReachesIff` | model_gateway/src/tenant.rs:166-177 | a key resolves to itself exactly if it is not empty and has no outer whitespace |

## Left out

- Discovery.PodTracker.SubmitJob: the queue's answer is an input; its status map and the causes of a rejection are not modelled.
- CrdtMap.CrdtOrMap.Merge: one atomic step; `CrdtRace` takes it apart, with a local write still one step and a log that has room.
- CrdtCluster.DeliveriesMergeable: a replica is one handle with one clock; what clones of a handle do is in `CrdtClones`.
- Overlap.OrderlyRunRefines: the discipline is sufficient only; `OverlapAgreesIff` and `ScheduleRefinesIff` are the exact conditions, step by step and on the history.
- Convergence.CycleProgress: for live sets with distinct names; `CycleBalance` and `AddStepWidensIff` are for every live set.
- Convergence.BoundedConvergence: for live sets with distinct names; `NeverSettles` says what happens otherwise.
- Convergence.SelfStabilises: for live sets with distinct names; `SettlesIff` is for every live set.
- Convergence.SecondCycleSilent: for live sets with distinct names; `SecondCycleSilentIff` is for every live set.
- Convergence.AddedCountExact: for live sets with distinct names; `CountBalance` is for every live set.
- Convergence.AddedIffAccepted: for live sets with distinct names; `CountBalance` is for every live set.
- Convergence.AddedCountFaithful: for live sets with distinct names; `CountBalance` is for every live set.
- Poller.RatesCoverChange: rates are real numbers; rounding of floating-point values is not modelled.
- Execution of queued jobs, their order and their effect on the worker registry beyond replay in log order.
- Kubernetes client, list paging, tasks, timers, mutex poisoning, metrics and logging; lock sections and submission answers are what remains of them.
- API key and connection attempts of a worker specification, and the formatting of the label selector as text.
- The size reads behind the count of added pods in the interleaved model; the count is proved for undisturbed cycles.
- JSON parsing, decoding of UTF-8 split across chunks, request bodies, and the text layout of metrics; they are inputs.
- Upsert operations of the replicated map and its key locks.
- The dashboard's worker load histories, which repeat the same push.
- Router wiring, configuration copying, language bindings, rendering and report formatting, which would add only easy members.
