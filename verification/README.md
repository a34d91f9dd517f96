# The KryptonDeployment operator, verified

The operator watches `KryptonDeployment` objects on a home cluster. For each one it keeps a Helm release `ced-<name>`
in the namespace `<name>` of the edge cluster the spec routes to, reports the result in the object's status, and cleans
up behind a finalizer. This project models that reconcile loop in Dafny and proves what survives every interleaving of
its calls with user edits, deletions, drift, failed calls and restarts.

## How the model is built

There are two levels.

*A step system* (`Machine`, `Edge`). `Machine.React` is the reconcile as a program: given the reply to a call, which
call comes next, or which result. `Machine.Step` adds the rest of the world: the home API server with the whole history
of stored versions, the edge namespaces, the Secrets, the provider's cache, and every action of others between two
calls. `Machine.Run` folds `Step` over any list of actions, so a statement about `Run` is one about every run.
`Fleet` in `Isolation` puts many keys side by side over one shared world.

*Methods in the operator's own shape* (`Operator`, `DeepCopy`, `SecretProvider`, `Manifest`, `CheckInterval`, `CrdWatch`).
The methods of `Operator.Reconciler` branch and loop as the Go functions do and edit a heap object in place. Each `Call`
must be the call the step system is at, an oracle decides what others do before it and how it is answered, and each
method ends at the program point the step system ends at. `Reconciler.Valid` says that the world is one a run reaches,
so all theorems about runs apply after every method.

The proofs, theorem by theorem: `Safety` (finalizer before effects, no resurrection), `ReadySound`, `StatusRuns`
(status coherence, others' finalizers), `Progress` (termination, nothing dropped), `Convergence`, `Deletion`,
`Cleanup`, `Isolation`, `Warrants` (the reason for each call, status and delay); and below them `Conditions`,
`Finalizers`, `Manifest`, `Drift`, `Routing`, `Selections`, `Words`.

## What is assumed of the surroundings

Each assumption is a branch of `Machine.ServeHome`, `Machine.OutsideHome`, `Machine.Step` or `Edge.Serve`.

- The home API server takes an update only if it carries the current resourceVersion. An identical object is not stored
  again. An object goes only when it is being deleted and its finalizer list is empty, and the deletion mark stays for
  the life of the incarnation (its UID). `Update` keeps the stored status, `Status().Update` changes the status alone.
- A cached read may show an older version, but never an older one than a read before it, across restarts too.
  Reconciles of one key are serial.
- Others may do anything to spec, deletion and finalizers, except take the operator's own finalizer away. They write no
  condition of type `Ready`.
- Any call can be refused, or take effect and still report an error. The Helm history may report an error although the
  release is there. A failed install or upgrade may leave anything at all in its namespace; a failed uninstall anything
  of what was there.
- Install needs an active namespace without a release record, upgrade a release that is neither pending nor uninstalled.
  A successful deploy stores the rendered manifest, removes what only the previous one had, and makes every rendered
  object exist. Which Deployments are listed after it, and at what availability, is up to the controllers. Deleting a namespace takes its objects and its release record with it.

## Where the code does not do what one would expect

Each is a lemma with a concrete input, or the exact condition under which the code is right.

- An empty discovery namespace makes the routing key start with a slash; the provider then looks for a Secret whose name
  is the whole key. The round trip holds iff the intended namespace is non-empty and free of slashes
  (`Routing.RoutingRoundTrip`, `Routing.EmptyDiscoveryNamespaceMisroutes`).
- `KRYPTON_CHECK_INTERVAL` in whole seconds is multiplied in int64. The interval is the one asked for iff the number is at
  most 9223372036; above it the interval can be negative or zero, and then a Ready object, and no other, is not requeued
  (`CheckInterval.LatchedIsPositive`, `CheckInterval.LargeSecondsAreLost`, `Progress.NothingDropped`).
- An object with an empty account name cannot be deleted, because validation comes before the delete path
  (`Deletion.DeleteNeverWedges`, an if and only if).
- A deep copy of a spec shares the `Kubeconfig` pointer with the original, although `RegionInfo.DeepCopyInto` would not
  (`DeepCopy.KubeconfigIsShared`).
- An edit of `spec.region` between the read of an object and its first effect orphans what the stale copy writes: the
  deletion cleans up the new target only. From the version the first effect was based on, unchanged routing suffices
  (`Cleanup.StaleCopyOrphans`, `Cleanup.DeleteCleansUp`).
- Two reconciles that look up the same uncached cluster do not commute if just one of the lookups fails
  (`Isolation.ClashingLookupsDoNotCommute`).
- The repository's own README.md describes a Tenant resource, chart skipping and per-cluster conditions, and lists the
  finalizer as future work; the code has none of the former and has the finalizer. The model follows the code.

## Model

| member | source | states |
|---|---|---|
| `Safety.FinalizerBeforeEffects` | internal/multicluster/krypton_operator.go:422-458 | In every run, when the namespace is created or the release installed or upgraded for an incarnation, the home store holds that incarnation with the operator's finalizer |
| `Safety.NoResurrection` | internal/multicluster/krypton_operator.go:496-511 | In every run, after the delete path's update has removed an incarnation's finalizer, nothing is created on an edge for that incarnation again |
| `Safety.UnrecordedStepsCreateNothing` | internal/multicluster/krypton_operator.go:536-721 | The effects the two theorems speak of are all there are: any other call, however it fails, brings no namespace, no release and no object into being |
| `Safety.Reachable` | internal/multicluster/krypton_operator.go:378-459 | The inductive invariant holds in every state of every run: versions are positions in the history, the working copy is a version a monotone read may show, and whatever protected version may still be read is protected in the store now |
| `Safety.StepKeeps` | internal/multicluster/krypton_operator.go:378-459 | Every single step, of the operator or of anyone else, keeps that invariant |
| `Safety.AppendKeeps` | internal/multicluster/krypton_operator.go:427-433 | A new stored version keeps it as long as the incarnation keeps identity, deletion mark and the operator's finalizer |
| `Safety.RemovalKeeps` | internal/multicluster/krypton_operator.go:496-508 | The finalizer-removing update keeps it, because an accepted one is based on the current, deleting version |
| `Safety.LogEffectKeeps` | internal/multicluster/krypton_operator.go:453-458 | At a creating call the copy's incarnation is guarded and has not been released |
| `Safety.ReactKeepsCopy` | internal/multicluster/krypton_operator.go:401-458 | The program carries its working copy from call to call: not deleting and with finalizer on the apply path, deleting on the other |
| `Safety.HomeKeeps` | internal/multicluster/krypton_operator.go:401-432 | Every home call, accepted, refused or with its reply lost, keeps the invariant |
| `ReadySound.ReadyIsSound` | internal/multicluster/krypton_operator.go:577-633 | In every run, every version the store has ever held that shows Ready was earned, under the chart it shows, by one reconcile of its incarnation in which, in order, the namespace was seen or created, the release found, no in-scope object answered NotFound, a deploy succeeded and a list showed every Deployment with as many available replicas as its spec says, or one if it does not; no other deploy was made |
| `ReadySound.RunKeepsRecorded` | internal/multicluster/krypton_operator.go:623-629 | Every stored version that shows Ready has a record of being stored, for its incarnation and chart |
| `ReadySound.RecordsAreEarned` | internal/multicluster/krypton_operator.go:577-633 | Every such record is of a reconcile as above |
| `ReadySound.ReadyDeploysOnce` | internal/multicluster/krypton_operator.go:590-600 | A reconcile that re-installed or repaired is none of these: the one deploy is the converging one, just before the list |
| `ReadySound.EdgeKeepsTrace` | internal/multicluster/krypton_operator.go:785-876 | After every edge call the exchanges so far are evidence for the program point reached |
| `ReadySound.RunKeepsTrace` | internal/multicluster/krypton_operator.go:563-634 | The same over all runs, for the reconcile under way and for every Ready on record |
| `StatusRuns.StatusIsCoherent` | internal/multicluster/krypton_operator.go:388-396 | In every run every stored status is Ready exactly when its single Ready condition is True, and lastAppliedChart is the chart of the incarnation's latest stored Ready |
| `StatusRuns.StatusWritesFollow` | internal/multicluster/krypton_operator.go:578-627 | In every run a status write changes the status alone: generation read, other conditions untouched, transition time moved iff the status flips, to the time of the reply that decided it, chart changed only by Ready |
| `StatusRuns.EdgeExitsFollow` | internal/multicluster/krypton_operator.go:578-627 | Every status-writing exit after an edge call follows from the copy's status in that sense |
| `StatusRuns.OtherExitsFollow` | internal/multicluster/krypton_operator.go:411-451 | So do the account and the edge-unavailable exits |
| `StatusRuns.StepKeepsStatus` | internal/multicluster/krypton_operator.go:388-396 | Every step keeps coherence of stored and pending statuses and the recorded chart |
| `StatusRuns.OperatorKeepsForeign` | internal/multicluster/krypton_operator.go:427-505 | No operator step changes others' finalizers, their order or multiplicity, or adds a second entry of its own; an object goes only when deleting with none of the others' left |
| `StatusRuns.DeletingKeepsEntries` | internal/multicluster/krypton_operator.go:496-508 | A deleting object that is still stored has a finalizer left, in every run |
| `Warrants.EveryExitReports` | internal/multicluster/krypton_operator.go:400-633 | No exit is silent: in every run a reconcile that has returned has written the notice its last reply but one was due, with phase, condition status, reason, message, generation, transition time, chart and delay as the source gives them, or was due none and ended at the fetch, a finalizer update or the namespace; no reply due a notice was passed over |
| `Warrants.EveryCallIsWarranted` | internal/multicluster/krypton_operator.go:398-753 | In every run each call a reconcile makes, and the point it stands at, is warranted by the reply just before it, on the same copy and cluster |
| `Warrants.ReactIsWarranted` | internal/multicluster/krypton_operator.go:398-753 | The same for one reply, whatever it is |
| `Warrants.DueIsWritten` | internal/multicluster/krypton_operator.go:411-627 | A status is written next iff a notice is due |
| `Warrants.ScanIsExact` | internal/multicluster/krypton_operator.go:838-875 | Under arbitrary answers: where the chart is fetched after a scan, each in-scope object of the release read was looked for once, in order, and the deploy is to heal exactly those whose own read was answered NotFound, described by kind, namespace and name, or to converge if there is none; any other answer adds nothing |
| `Warrants.ReportedIsExact` | internal/multicluster/krypton_operator.go:859-865 | What is reported is one description for each read answered NotFound, in order |
| `Warrants.UnreadyShows` | internal/multicluster/krypton_operator.go:578-585 | A report that is not Ready shows its phase, message, reason and condition, at its time, and leaves the rest |
| `Warrants.ReadyShows` | internal/multicluster/krypton_operator.go:623-627 | So does a Ready one, with repository, name and version of the chart |
| `Progress.StepAdvances` | internal/multicluster/krypton_operator.go:398-634 | Whatever a call answers, the program is nearer its end by a lexicographic measure |
| `Progress.Finish` | internal/multicluster/krypton_operator.go:398-634 | Every reconcile ends with a result, under every choice of answers |
| `Progress.NothingDropped` | internal/multicluster/krypton_operator.go:400-633 | Under the interval latched from a setting, a finished reconcile requeues after a positive delay iff its object was not absent, its finalizer not just removed, and it did not write Ready under a setting that overflows |
| `Progress.RunKeepsRequeue` | internal/multicluster/krypton_operator.go:400-633 | The delay of every pending or finished reconcile is positive, or the latched interval if it wrote Ready |
| `Convergence.DriftCheckIsExact` | internal/multicluster/krypton_operator.go:803-875 | With truthful reads of a found, not uninstalled release the chart is fetched to heal exactly the absent in-scope objects of its manifest, in order, or to converge |
| `Convergence.ScanLoop` | internal/multicluster/krypton_operator.go:839-866 | The scan adds exactly the descriptions of the absent objects among those still to look for |
| `Convergence.DeployHeals` | internal/multicluster/krypton_operator.go:868-874 | After any successful deploy a check of the stored manifest finds nothing missing |
| `Convergence.DeployRuns` | internal/multicluster/krypton_operator.go:684-718 | A truthful deploy into a usable namespace installs or upgrades as the record says, and ends with the rendered manifest stored and present, and the Deployments as the controllers have them |
| `Convergence.FromHistoryReady` | internal/multicluster/krypton_operator.go:577-633 | With a complete release the rest of the reconcile deploys, and the Deployments listed after that deploy decide: Ready and the check interval, or Pending, NotReady and 15 s |
| `Convergence.FromHistoryRepair` | internal/multicluster/krypton_operator.go:586-595 | With an absent or incomplete release it deploys and stores Pending, RepairTriggered |
| `Convergence.OneReconcile` | internal/multicluster/krypton_operator.go:427-633 | What one undisturbed reconcile leaves in store, namespace, cache and memory, for every applicable state, every rendering and every list of Deployments after its deploy |
| `Convergence.StillApplicable` | internal/multicluster/krypton_operator.go:427-633 | It leaves the object applicable again, with the finalizer and a complete release |
| `Convergence.DistanceFalls` | internal/multicluster/krypton_operator.go:427-633 | The distance from Ready falls to 1 with the first undisturbed reconcile; from a complete release it is 0 after the next iff every Deployment listed in it is available |
| `Convergence.ReadyIffAvailable` | internal/multicluster/krypton_operator.go:427-633 | After two or more undisturbed reconciles, whatever finalizer, namespace, release or objects were missing, the status is Ready, with the chart of the flags, iff every Deployment the last one listed after its deploy is available |
| `Convergence.ReportIsFixed` | internal/multicluster/krypton_operator.go:597-633 | After a stored Ready or NotReady, a reconcile that finds the same Deployments short, or again none, stores nothing and changes in the namespace only the release revision and what the controllers do |
| `Convergence.VerdictTwice` | internal/multicluster/krypton_operator.go:612-627 | Coming to the same verdict again, at any later time, is the identical object |
| `Convergence.StoresVerdict` | internal/multicluster/krypton_operator.go:606-633 | Over a complete release a reconcile stores exactly the verdict of its list |
| `Convergence.DeployTwice` | internal/multicluster/krypton_operator.go:707-718 | Deploying the same manifest again only advances the revision, the Deployments aside |
| `Deletion.DeleteNeverWedges` | internal/multicluster/krypton_operator.go:411-512 | Under every combination of lookup and edge failures one delete reconcile with a current read and an accepted update releases the object, iff its account name is set; others' finalizers stay |
| `Deletion.UpToUpdate` | internal/multicluster/krypton_operator.go:471-505 | Whatever lookup and edge calls answer, the delete path arrives at its home update with the store untouched |
| `Deletion.RemovalReleases` | internal/multicluster/krypton_operator.go:505-511 | An accepted removal leaves nothing of the object if no one else holds it, else the same object with the others' entries |
| `Cleanup.DeleteCleansUp` | internal/multicluster/krypton_operator.go:474-494 | From any point of a run before anything was done for an incarnation: if its routing key means one cluster from there on, and every version of it from the one its first effect was based on prints that key, then once the delete path's namespace call succeeds or reports NotFound, every namespace the incarnation ever had an effect on is going or gone with its release |
| `Cleanup.StaleCopyOrphans` | internal/multicluster/krypton_operator.go:453-485 | The base version counts, not the moment: a run in which spec.region is edited only before the first effect, no call of the delete reconcile fails, the object is gone, and the namespace written from the stale copy is alive |
| `Cleanup.EdgesCanDiffer` | internal/multicluster/krypton_operator.go:514-534 | That run exists for any two regions intending different Secrets of usable namespaces |
| `Cleanup.CleansItsCluster` | internal/multicluster/krypton_operator.go:486-494 | After a truthful namespace deletion a cluster is clean iff it is the one worked on or was clean before |
| `Cleanup.StepKeepsAging` | internal/multicluster/krypton_operator.go:422-458 | Every step keeps that deletion marks and finalizers age one way within an incarnation and that its effects are based on ever later versions |
| `Cleanup.StepKeepsSettled` | internal/multicluster/krypton_operator.go:514-534 | While the key means one cluster, every step keeps that what was or is being done under it is on that cluster |
| `Deletion.RepeatedDeleteIsHarmless` | internal/multicluster/krypton_operator.go:461-512 | A delete reconcile whose edge calls go through, its home update failing or not, leaves its target clean; the next one, its calls answering anything, changes no namespace anywhere, and in the end the object is released iff either update was taken |
| `Deletion.FirstPass` | internal/multicluster/krypton_operator.go:476-494 | Truthful edge calls leave the target with no live release, the namespace not active, and the cluster cached |
| `Deletion.SecondPass` | internal/multicluster/krypton_operator.go:476-494 | A pass over a clean target changes no namespace on any cluster, whatever its calls answer |
| `Deletion.PassUpdates` | internal/multicluster/krypton_operator.go:496-511 | A pass as a whole writes the others' finalizers iff its update takes effect over an unchanged object, and else nothing |
| `Isolation.StepIsIsolated` | internal/multicluster/krypton_operator.go:453-458 | A call changes its own object and at most the namespace named after it on its own cluster; Secrets stay, the cache only gains what a Secret says |
| `Isolation.FinishIsIsolated` | internal/multicluster/krypton_operator.go:453-458 | So does a whole reconcile, on the clusters it can be routed to |
| `Isolation.FinishLeavesOthers` | internal/multicluster/krypton_operator.go:476-485 | It leaves every other key's object and reconcile alone |
| `Isolation.StepsCommute` | internal/multicluster/krypton_operator.go:453-485 | Calls of two keys commute unless both are at one namespace of one cluster or their lookups clash |
| `Isolation.ClashingLookupsDoNotCommute` | multicluster/secretprovider/provider.go:41-74 | The condition on lookups is exact |
| `Isolation.ReconcilesCommute` | internal/multicluster/krypton_operator.go:453-574 | Whole reconciles of two keys that differ in name or in every target edge commute, the cache included, whatever their home and edge calls answer; so do their lookups' failures if their stored versions print different routing keys, else none of the lookups may fail transiently |
| `Isolation.KeysApartDoNotClash` | internal/multicluster/krypton_operator.go:514-534 | Lookups of keys printed by no version of the other object do not clash |
| `Isolation.StepKeepsKeysApart` | internal/multicluster/krypton_operator.go:514-534 | No write of the operator changes which keys an object's versions print |
| `Isolation.StepCommutesWithFinish` | internal/multicluster/krypton_operator.go:453-574 | One call of one commutes with the whole reconcile of the other |
| `Isolation.StepKeepsApart` | internal/multicluster/krypton_operator.go:514-534 | A call keeps the two keys confined to their disjoint sets of clusters |
| `Isolation.CacheCommutes` | multicluster/secretprovider/provider.go:38-75 | Two lookups of the shared cache commute as maps and in their answers |
| `Operator.Reconciler.ReconcileCED` | internal/multicluster/krypton_operator.go:378-459 | The method makes a run of the step system from its Begin to its result, every call warranted by the reply before it, never fails, leaves the informer's object as it was read, and requeues positively unless the last exchange was final or a Ready write under a non-positive interval |
| `Operator.Reconciler.ReconcileObject` | internal/multicluster/krypton_operator.go:400-425 | Fetch and all that follows: each call is the step system's, and so is the result; the informer's object is untouched |
| `Operator.Reconciler.Read` | internal/multicluster/krypton_operator.go:400-409 | A read hands out a deep copy with slices of its own, equal to the informer's object |
| `Operator.Reconciler.Proceed` | internal/multicluster/krypton_operator.go:411-425 | Validation and the deletion fast path, in that order |
| `Operator.Reconciler.Apply` | internal/multicluster/krypton_operator.go:427-458 | Finalizer, routing, namespace, deploy: ends where the step system ends |
| `Operator.Reconciler.Protect` | internal/multicluster/krypton_operator.go:427-435 | The finalizer is appended in place and written; on success the working copy is what the server returned |
| `Operator.Reconciler.HandleDelete` | internal/multicluster/krypton_operator.go:461-512 | Exactly these calls: the lookup; the clean-up iff it finds the cluster; the removal of the finalizer always, whose reply alone decides the delay |
| `Operator.Reconciler.CleanUp` | internal/multicluster/krypton_operator.go:476-494 | The uninstall's calls and then the namespace deletion, whatever they answered |
| `Operator.Reconciler.Release` | internal/multicluster/krypton_operator.go:496-511 | One call writes every entry but the operator's; zero is returned iff it was answered with success, else 5 s |
| `Operator.Reconciler.UninstallHelmChart` | internal/multicluster/krypton_operator.go:723-753 | The history is asked, and the uninstall made iff it answers |
| `Operator.Reconciler.EnsureNamespace` | internal/multicluster/krypton_operator.go:536-561 | Goes on iff the namespace was seen or created, else requeues |
| `Operator.Reconciler.DeployAndStatus` | internal/multicluster/krypton_operator.go:563-595 | The check's two early exits, else the rest |
| `Operator.Reconciler.ConvergeAndReport` | internal/multicluster/krypton_operator.go:597-634 | Deploy, list, and the three exits after them |
| `Operator.Reconciler.ReportUnready` | internal/multicluster/krypton_operator.go:578-585 | Phase, message and condition written in place make the status the step system writes |
| `Operator.Reconciler.ReportReady` | internal/multicluster/krypton_operator.go:623-633 | The same for Ready, which alone records the chart |
| `Operator.Reconciler.CheckAndHeal` | internal/multicluster/krypton_operator.go:785-876 | Repaired, failed or nothing to do, with the missing list, exactly as the step system has it |
| `Operator.Reconciler.CheckManifest` | internal/multicluster/krypton_operator.go:831-876 | The same from the manifest on |
| `Operator.Reconciler.Repair` | internal/multicluster/krypton_operator.go:810-873 | A repairing deploy, with its missing list or its wrapped error |
| `Operator.Reconciler.FindMissing` | internal/multicluster/krypton_operator.go:838-866 | The loop over all objects reads each one in scope once, in order, and returns the descriptions of exactly those whose own read was answered NotFound |
| `Operator.Reconciler.LookFor` | internal/multicluster/krypton_operator.go:855-865 | One read: NotFound adds the object's description, any other answer nothing |
| `Operator.Reconciler.DeployHelmChart` | internal/multicluster/krypton_operator.go:636-721 | Fetch, history, install or upgrade; the error is the failing call's |
| `Operator.Reconciler.NamespaceWorkloadHealthy` | internal/multicluster/krypton_operator.go:917-934 | Healthy iff the list succeeded and no Deployment is short of replicas |
| `Operator.NotAvailable` | internal/multicluster/krypton_operator.go:924-933 | The loop returns the Deployments with fewer available replicas than desired, one if unset, in order |
| `Operator.WithoutFinalizer` | internal/multicluster/krypton_operator.go:497-503 | The loop returns every entry but the operator's, in order |
| `Machine.ReplyIsNoted` | internal/multicluster/krypton_operator.go:398-634 | An operator step appends one exchange, its call, the reply the program acted on, and the time |
| `Operator.OthersKeepProgram` | internal/multicluster/krypton_operator.go:398-634 | Nothing others do moves the operator's program |
| `Conditions.SetConditionAt` | internal/multicluster/krypton_operator.go:388-396 | Setting a condition is one overwrite at the first entry of its type, or one append, with the status, reason, message and generation given and the time of the last change of status |
| `Conditions.SetConditionEffect` | internal/multicluster/krypton_operator.go:388-396 | Other types are untouched in order; the first entry of the type says what was given, the others of it stay; there is one if there was none |
| `Conditions.SetConditionTwice` | internal/multicluster/krypton_operator.go:388-396 | Setting the same condition again, at any time, changes nothing |
| `Conditions.ReportFollows` | internal/multicluster/krypton_operator.go:578-585 | A report that is not Ready leaves a coherent status that follows from the one read, its condition's message that of the status, and keeps the chart |
| `Conditions.ReadyFollows` | internal/multicluster/krypton_operator.go:623-627 | So does a Ready one |
| `Finalizers.AddThenRemove` | internal/multicluster/krypton_operator.go:427-504 | Adding keeps the others' entries and one own copy; removing after adding is the identity on lists that lacked it |
| `Finalizers.WithoutKeepsCopies` | internal/multicluster/krypton_operator.go:497-503 | Removal keeps the multiplicity of every other entry |
| `Finalizers.Without` | internal/multicluster/krypton_operator.go:497-503 | The removed entry is gone, all others are there |
| `Manifest.SplitYAMLDocuments` | internal/multicluster/krypton_operator.go:898-914 | The loop ends, and returns the pieces the recursive split defines |
| `Manifest.JoinOfSplit` | internal/multicluster/krypton_operator.go:898-914 | Joining the pieces with the separator gives the input back |
| `Manifest.SplitOfJoin` | internal/multicluster/krypton_operator.go:898-914 | Splitting the join of any non-empty list of separator-free pieces returns the list |
| `Manifest.PiecesAreClean` | internal/multicluster/krypton_operator.go:903-912 | No piece contains the separator |
| `Manifest.PieceCount` | internal/multicluster/krypton_operator.go:903-912 | There is one piece more than there are occurrences |
| `Manifest.FirstAfterClean` | internal/multicluster/krypton_operator.go:905 | No occurrence straddles the end of a separator-free piece |
| `Manifest.Index` | internal/multicluster/krypton_operator.go:905 | The first occurrence, or -1 iff there is none |
| `Manifest.ParseManifestToObjects` | internal/multicluster/krypton_operator.go:879-896 | The loop returns the objects Parse defines, and never an error |
| `Manifest.ParseIsExact` | internal/multicluster/krypton_operator.go:879-896 | One object per piece of the split that holds something other than white space and decodes, in the order of the pieces, and no other |
| `Manifest.ParseMembers` | internal/multicluster/krypton_operator.go:879-896 | An object is parsed iff a piece that is not blank decodes to it |
| `Manifest.SeparatorAt` | internal/multicluster/krypton_operator.go:905 | The separator is a newline and three dashes |
| `Manifest.SpacesByCode` | internal/multicluster/krypton_operator.go:884 | White space by code point |
| `Manifest.ParseOfJoin` | internal/multicluster/krypton_operator.go:879-914 | On joined separator-free documents, for any decoder, parsing is filter-map of the decoder over them |
| `Drift.ScopeIsExact` | internal/multicluster/krypton_operator.go:841-850 | The objects looked for are exactly those of the manifest in the release namespace or in none and of an allowed type, each as often as it stands there, in order |
| `Drift.AllowedIsExact` | internal/multicluster/krypton_operator.go:846-847 | The six allowed types, by group, version and kind |
| `Drift.AbsentIsExact` | internal/multicluster/krypton_operator.go:839-866 | Of a manifest's objects exactly those looked for and not live by group, version, kind and name are found missing, each as often as it stands there, in order |
| `Drift.DeployHealsAll` | internal/multicluster/krypton_operator.go:868-874 | If everything a manifest places is live, nothing of it is missing |
| `Drift.DescribeReads` | internal/multicluster/krypton_operator.go:852-861 | Kind, slash, namespace or the release's own, slash, name |
| `Drift.DescribeIsExact` | internal/multicluster/krypton_operator.go:852-861 | The reported Kind/namespace/name tells in-scope objects apart, for slash-free names |
| `Routing.RoutingRoundTrip` | internal/multicluster/krypton_operator.go:514-534 | The key printed for a spec is parsed as the Secret intended (new reference, deprecated field, region default) iff the namespace intended is non-empty and slash-free |
| `Routing.PairRoundTrip` | multicluster/secretprovider/provider.go:44-53 | A printed pair is parsed back iff its namespace is non-empty and slash-free and its name non-empty |
| `Routing.PlainKeys` | multicluster/secretprovider/provider.go:44-53 | A key that is no such pair names a Secret of the discovery namespace |
| `Routing.IntendedByPrecedence` | internal/multicluster/krypton_operator.go:514-534 | What is intended, case by case: a named reference, else the deprecated field, else the region's default |
| `Routing.KeysAreExact` | internal/multicluster/krypton_operator.go:514-534 | Two specs share a cache entry iff they intend the same Secret |
| `Routing.EmptyDiscoveryNamespaceMisroutes` | internal/multicluster/krypton_operator.go:532-533 | The input for which the round trip fails |
| `SecretProvider.Provider.Get` | multicluster/secretprovider/provider.go:38-75 | A cached name returns the same cluster; another one is built from its Secret and cached, or fails and leaves the cache alone; each name is built at most once |
| `SecretProvider.Provider.Construct` | multicluster/secretprovider/provider.go:54-72 | Which of the five errors is returned when, and otherwise the cluster of the configuration loaded from the Secret's data |
| `SecretProvider.Provider.List` | multicluster/secretprovider/provider.go:83-91 | Exactly the cached names, each once |
| `SecretProvider.CachedIffSucceeded` | multicluster/secretprovider/provider.go:38-91 | After any sequence of Gets the cache holds exactly what it held before and the names that succeeded |
| `SecretProvider.Provider.Gets` | multicluster/secretprovider/provider.go:38-75 | Any sequence of Gets: a name that has got a cluster gets that very object ever after, and answers and cache are those of the specification functions |
| `SecretProvider.SameClusterForever` | multicluster/secretprovider/provider.go:41-43 | In that specification, once a name has succeeded every later Get of it answers the same configuration |
| `SecretProvider.OneMore` | multicluster/secretprovider/provider.go:38-75 | A Get after a sequence answers from the cache the sequence has left |
| `SecretProvider.FailuresAreNotCached` | multicluster/secretprovider/provider.go:55-72 | A name that has only failed answers as an uncached lookup does now |
| `SecretProvider.CacheIsInvisible` | multicluster/secretprovider/provider.go:38-75 | While Secrets do not change, Get agrees with building from the Secret each time |
| `CheckInterval.Latch.GetCheckInterval` | internal/multicluster/krypton_operator.go:763-781 | The first call latches: the duration if positive, else the number of seconds if positive and at most 9223372036, else 60 s; later calls return the same |
| `CheckInterval.LatchedIsPositive` | internal/multicluster/krypton_operator.go:763-781 | The latched interval is positive iff the setting is not a number of seconds whose nanoseconds modulo 2^64 are zero or above the largest int64; no duration, no default and no number up to 9223372036 is |
| `CheckInterval.Requested` | internal/multicluster/krypton_operator.go:764-779 | What a setting asks for is always positive |
| `CheckInterval.SecondsFit` | internal/multicluster/krypton_operator.go:774-776 | A positive number of seconds survives the int64 multiplication iff it is at most 9223372036 |
| `CheckInterval.LargeSecondsAreLost` | internal/multicluster/krypton_operator.go:774-776 | Settings that give a negative interval, and zero |
| `CheckInterval.TrimSpaceIsExact` | internal/multicluster/krypton_operator.go:765 | What is left is what stands between white space at both ends, and none is left there |
| `CheckInterval.TrimSpace` | internal/multicluster/krypton_operator.go:765 | Trimming leaves nothing iff the text is blank |
| `CrdWatch.EnsureKryptonDeploymentCRD` | internal/multicluster/crd_watch.go:27-75 | Nil iff some attempt of the first five settles it after transient failures only; which failure is returned when; at most five gets, exactly the creations and the sleep the answers call for, at most one successful creation and 4.5 s; the exhausted error is unreachable |
| `CrdWatch.AttemptsByAnswer` | internal/multicluster/crd_watch.go:36-69 | What settles an attempt and what loses it, by the API's answers |
| `CrdWatch.TransientIsExact` | internal/multicluster/crd_watch.go:41 | A message is transient iff one of the three texts stands somewhere in it |
| `CrdWatch.LastAttempt` | internal/multicluster/crd_watch.go:35-70 | The first attempt that is not retried decides alone |
| `DeepCopy.KryptonDeployment.DeepCopyInto` | api/v1alpha1/deepcopy_manual.go:193-199 | Equal in value, fresh slices, nil stays nil, kubeconfig pointer shared |
| `DeepCopy.KryptonDeployment.DeepCopyObject` | api/v1alpha1/deepcopy_manual.go:183-190 | The same in a fresh object |
| `DeepCopy.KryptonDeployment.StatusDeepCopyInto` | api/v1alpha1/deepcopy_manual.go:74-82 | Equal status over a fresh condition slice |
| `DeepCopy.KryptonDeployment.CopyConditions` | api/v1alpha1/deepcopy_manual.go:76-81 | The copy loop gives a fresh slice with equal entries, nil for nil |
| `DeepCopy.KryptonDeployment.SetStatusCondition` | internal/multicluster/krypton_operator.go:389-395 | The in-place update of the condition slice is SetCondition |
| `DeepCopy.KryptonDeployment.SetReadyCondition` | internal/multicluster/krypton_operator.go:388-396 | The Ready condition with the generation read |
| `DeepCopy.DeepCopyRegion` | api/v1alpha1/deepcopy_manual.go:95-102 | A region copy has a kubeconfig reference of its own |
| `DeepCopy.WritesStayInTheCopy` | api/v1alpha1/deepcopy_manual.go:183-199 | All writes a reconcile makes to a deep copy leave the cached object as it was |
| `DeepCopy.KubeconfigIsShared` | api/v1alpha1/deepcopy_manual.go:57-61 | The one way through: a write through the shared reference reaches the original |
| `DeepCopy.KryptonDeploymentList.DeepCopyInto` | api/v1alpha1/deepcopy_manual.go:212-222 | Each item equal in value to its original, items and their slices fresh, no two items sharing any; nil stays nil |
| `DeepCopy.KryptonDeploymentList.CopyItems` | api/v1alpha1/deepcopy_manual.go:217-220 | The item loop, with the same of every item |
| `Edge.UnavailableIsExact` | internal/multicluster/krypton_operator.go:924-933 | Reported are exactly the Deployments with fewer available replicas than their spec says, or than one if it does not, each once and in order |
| `Edge.Unavailable` | internal/multicluster/krypton_operator.go:924-933 | Nothing is reported iff every Deployment is available |
| `Words.ChartRefIsExact` | internal/multicluster/krypton_operator.go:625 | The recorded chart tells repository, name and version apart, for names without a slash and versions without a colon |
| `Words.ItoaReads` | internal/multicluster/krypton_operator.go:930 | Replica counts are printed in decimal |
| `Words.WorkloadReads` | internal/multicluster/krypton_operator.go:925-930 | The line for a Deployment short of replicas |
| `Words.MessagesRead` | internal/multicluster/krypton_operator.go:411-624 | How the messages read |
| `Words.FailuresRead` | internal/multicluster/krypton_operator.go:598-601 | How a failed deploy reads, the error last |
| `Words.HealthFailuresRead` | internal/multicluster/krypton_operator.go:578-581 | How a failed health check or repair reads, the error last |

## Left out

- Helm's own workings, chart download and chart loading: one call that gives a rendered manifest or an error, and the install, upgrade, uninstall and history contracts above.
- Recovery from a release that was uninstalled with its history kept, or that is pending: the code takes the upgrade branch there, which the contract lets fail.
- A release read without an error always has a status here; the guards of the drift check against a nil release or nil info are not reached.
- YAML decoding is an arbitrary partial function from documents to objects, and so are the kubeconfig loader, `time.ParseDuration` and `strconv.Atoi`.
- Charts that render into other namespaces or cluster-wide: only what lives in the release namespace is tracked, which is what the drift check looks at.
- Which Deployments a list shows after a deploy is not derived from the rendered objects: the results hold for every list.
- Clean-up of a former target after `spec.region` is edited, and two same-named deployments on one edge: the code does not track these, so `Cleanup.DeleteCleansUp` and `Isolation.ReconcilesCommute` exclude them.
- Isolation.ReconcilesCommute: where two objects share a routing key, no lookup may fail transiently, because with a clash the two orders do end differently; nobody but the two reconciles acts meanwhile.
- Deletion.RepeatedDeleteIsHarmless: between its two reconciles only the namespace controller acts; a target that the first one could not clean is deleted again by the second, as it should be.
- Messages and reasons in a status are structured values; `Resources.Text` and `Resources.CauseText` give the words.
- DeepCopy.KryptonDeployment: type and list metadata, labels and annotations are not fields of the model; slices have no spare capacity, so an append always moves.
- The provider's mutex appears as the atomicity of `Get` and `List`; a cluster is identified in the step system by its configuration.
- Cancellation of a context, several workers on one key, and more than one operator process at a time.
- Events, log lines, flags, environment, scheme and manager wiring, health endpoints; `Account` and `Region` types, charts, RBAC, and the CRD's YAML.
