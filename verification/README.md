# Aergia: scaling a namespace to zero and back

Aergia idles an environment (a Kubernetes namespace) by scaling its deployments to zero and routing its
ingresses to itself, and brings it back when a request arrives or a label asks for it. Four drivers that
know nothing of each other - the service idler, the namespace reconciler, HTTP requests and `Unidle`
goroutines - do this with JSON merge patches on one shared cluster. This project models that protocol and
proves what it keeps.

## How the model is built

* `Clusters` is the shared state: objects with labels, annotations and a replica count, merge patches
  (section 2 of RFC 7396), label selectors, and a class `Cluster` with `PatchObject`.
* `Patches` holds the six patches the controller computes, each from a snapshot of its object, and what each
  does to an object that may have changed since.
* `Idlers`, `Unidlers` and `Reconcilers` are the imperative code: classes whose methods have the loops,
  breaks and early returns of the source, each proved against a function that says what it does to a
  namespace (`IdleRun`, `ServicePass`, `Unidled`, `Reconciled`). `IdlerFacts`, `Decision`,
  `UnidlerFacts` and `ReconcilerFacts` prove what those functions mean, `Decision` on raw labels, phases,
  ages and samples.
* `CommaList`, `Decimal`, `Hyphens`, `Access` and `Verifier` are the computations underneath.
* `Protocol` is the same code one step at a time: a step is one List, one Patch or one lock operation of one
  thread, any other thread may move in between, a List may return any version an object has had, any call
  may fail, and a thread may crash. `Sequential` proves that every call of `Unidle`,
  `KubernetesServiceIdler` and `Reconcile`, and every admissible request, is what its threads do when
  nothing comes between, failures, stale Lists and lock included. `Safety`, `Confluence`, `WakePath`, `Lock`
  and `Sticky` quantify over all runs; `Forced` follows the two force labels from the label to the requests
  after it; `Replicas` is about all sequences of calls; `UnidlePath` about all sequences of complete runs
  (`Calls`) with stale Lists, and `StepPath` about single steps; `LostPath` and `LostLock` hold runs that
  show which conditions are needed.

I/O, the clock, List answers, query results and failures are inputs (`Env` for the methods, `Choice` for the
steps).

## Where the code differs from what is said of it

* The repository's README.md:25-26 promises a return to the previous state. The test for an already idled
  deployment (service-kubernetes.go:83-87) compares two pointers and never matches, so a deployment at 0 can
  be idled again and forgets its count. The promise holds if and only if the count was 1 or the deployment
  was never idled while at 0 (`Replicas.ReplicasConserved`; a failing family in `Replicas.ReidledForgets`).
* The comment at restrictions.go:77-78 says that an allow list turns away everyone else. It does not
  (`Access.AllowListWitness`); `Access.AllowListTurnsAway` says exactly who is turned away. The
  allowed-agents lists never matter.
* handler.go:142 speaks of a lock against several unidles at once. Two requests can pass it together
  (`Lock.TwoRunsAtOnce`). As long as no Unidle comes from the reconciler, there is never more than one run
  pending or running if and only if no request loads while another stands between its Load and its
  LoadOrStore (`Lock.LockIsExclusive`; once both of such requests go on, two runs are under way,
  `Lock.ClaimsBecomeRuns`). The reconciler must stay out: its Unidle deletes the lock of another run
  (`LostLock.ReconcilerLetsSecondIn`). In general the lock is never left behind (`Lock.LockNeverOrphaned`,
  `Lock.UnidleReturns`), and several runs do no harm to the cluster, even when all but one of them fail
  (`Confluence.UnidlesConfluent`).
* service-kubernetes.go:176-178 means to keep a way back up for whatever is idled. At every single step it
  is kept when no idle overlaps an Unidle, the first List of each `Unidle` shows what is idled as idled, and
  its patches of idled deployments succeed (`WakePath.WakePathKept`); runs of the same kind may overlap in
  any way. Without any of the three it can be lost (`LostPath.OverlapLosesPath`,
  `LostPath.StaleListLosesPath`, `LostPath.FailedPatchLosesPath`). For complete runs one after the other,
  with Lists of any age and any failures, the condition is exact: an idle always keeps the way back, and an
  Unidle keeps it unless it misses an idled deployment and yet takes an entry or the label from a selected
  ingress, which depends only on what its two Lists show and which calls fail
  (`UnidlePath.UnidleKeepsPathIff`, for whole sequences `UnidlePath.CallsKeepPathIff`). For runs that
  overlap in any way it is exact at single steps: the way back is there throughout if and only if no
  deployment is idled while the path is not open, and none is idled while an entry is taken from a selected
  ingress or the namespace of one is unmarked (`StepPath.RunKeepsPathIff`).
* The repository's README.md:22-23 promises that the next request does not unidle a force-scaled
  environment. The check is a List, which may be out of date or fail. Without an unidle label, it stays down
  through any run of requests, idles, failures and crashes, also beside earlier Unidles that are past their
  scaling up or finished, as long as each request's List answers and shows the deployment as the force-scale
  left it or later (`Sticky.ForceScaleSticks`, `Forced.ForceScaleStaysDown`); that the label is still there
  to be shown is part of what is proved, and all other Lists may be as old as they like. A request that is
  not told so, by an older or a failed answer, goes on to start an Unidle unless the namespace is locked
  (`Forced.UninformedStarts`, `Forced.StaleListUnsticks`).
* The hit counter wraps around: zero means that the sum of the samples is a multiple of 2^64
  (`IdlerFacts.QuietMeansZero`, `IdlerFacts.WrappingHits`).
* The repository's README.md:20 says a force-idled environment is scaled down immediately. It is if and only
  if the run gets that far, the selector picks the deployment and its patch succeeds
  (`Decision.IdledIff`); a running build is one way for it not to, and the label is used up all
  the same (`ReconcilerFacts.BuildConsumesTrigger`).

## Model

| member | source | states |
|---|---|---|
| CommaList.AddStatusCode | internal/handlers/idler/helpers.go:23-35 | the search loop returns the list with the code appended once |
| CommaList.RemoveStatusCode | internal/handlers/unidler/helpers.go:12-24 | the filter loop returns the other entries in order, nil when none is left |
| CommaList.JoinSplit | internal/handlers/unidler/helpers.go:14-22 | joining what was split gives the text back, for every text |
| CommaList.SplitJoin | internal/handlers/unidler/helpers.go:14-22 | splitting what was joined gives the entries back, for every non-empty list of comma-free entries |
| CommaList.SplitAppend | internal/handlers/idler/helpers.go:33 | a text appended after a comma adds exactly its own entries |
| CommaList.AddedEntries | internal/handlers/idler/helpers.go:23-35 | the entries of the list after an add |
| CommaList.RemovedEntries | internal/handlers/unidler/helpers.go:12-24 | the entries of the list after a remove; nil exactly when none is left |
| CommaList.RemoveUndoesAdd | internal/handlers/unidler/helpers.go:12-24 | removing what was added gives back every list that lacked the code, nil for the empty one |
| CommaList.AddIdempotent | internal/handlers/idler/helpers.go:23-35 | adding twice is adding once, and the code is then an entry |
| CommaList.RemoveIdempotent | internal/handlers/unidler/helpers.go:12-24 | removing twice is removing once, and the code is then no entry |
| CommaList.AddRemoveCommute | internal/handlers/unidler/helpers.go:12-24 | adding one code and removing another commute if and only if no lone empty entry is left over, in particular on all lists without empty entries |
| CommaList.AddKeeps | internal/handlers/idler/helpers.go:23-35 | add changes no entry but the controller's, nor the order |
| CommaList.RemoveKeeps | internal/handlers/unidler/helpers.go:12-24 | remove changes no entry but the controller's, nor the order |
| CommaList.RemoveLeavesKept | internal/handlers/unidler/helpers.go:12-24 | on lists without empty entries remove leaves exactly the other entries, and no empty entry |
| Decimal.DigitsRoundTrip | internal/handlers/idler/service-kubernetes.go:225 | the printed digits of a number have its value |
| Decimal.AtoiFormatInt | internal/handlers/unidler/unidler.go:156 | Atoi reads back what FormatInt printed, for every int64 |
| Decimal.AtoiClamps | internal/handlers/idler/service-kubernetes.go:158 | a number above the int64 range is read as the largest int64 |
| Decimal.FormatStep | internal/handlers/idler/service-kubernetes.go:225 | printing appends the decimal digits one by one |
| Decimal.AtoiSyntax | internal/handlers/unidler/unidler.go:156 | an optional sign and at least one decimal digit are a number, anything else an error; a minus sign negates |
| Hyphens.CollapseNormal | internal/handlers/idler/service-kubernetes.go:271 | one pass leaves no two adjacent hyphens, keeps all other characters in order and adds none |
| Hyphens.CollapseIdempotent | internal/handlers/idler/service-kubernetes.go:271 | a second pass changes nothing, and the first is the identity exactly on text without a double hyphen |
| Hyphens.CollapseRun | internal/handlers/idler/service-kubernetes.go:271 | a double hyphen anywhere counts as a single one |
| Hyphens.MiddlewareIsOneEntry | internal/handlers/unidler/checks.go:86-87 | the middleware name is one non-empty list entry, so idle adds and unidle removes the same entry |
| Clusters.Merge | internal/handlers/idler/service-kubernetes.go:229 | merge patch of a string map: null deletes, a value replaces, absent members stay |
| Clusters.Select | internal/handlers/unidler/unidler.go:134-142 | a List returns exactly the objects its selector picks |
| Clusters.SelectDistinct | internal/handlers/unidler/unidler.go:134-142 | each of them once |
| Clusters.Operators | internal/handlers/idler/helpers.go:9-12 | the negated selector operators are the complements of the others, and In asks for one of the values |
| Clusters.ApplyTwice | internal/handlers/unidler/unidler.go:179 | every merge patch is idempotent |
| Clusters.Cluster.PatchObject | internal/handlers/unidler/unidler.go:179 | one Patch call changes one object, or nothing when it fails |
| Patches.IdleThenWake | internal/handlers/unidler/unidler.go:146-187 | idling a running deployment and waking it restores its count; all other labels and annotations are as before, both force labels gone |
| Patches.IdleMarks | internal/handlers/idler/service-kubernetes.go:205-228 | what an idle leaves on any deployment: watched, idled, stamped, each force label set when asked for and otherwise kept |
| Patches.WakeReplicasOfIdled | internal/handlers/idler/service-kubernetes.go:196-228 | an idle leaves a watched, idled deployment at 0 whose annotation is the count the next wake will read |
| Patches.AnnotateThenStrip | internal/handlers/unidler/checks.go:72-121 | annotating puts both entries in; stripping gives back every list that lacked them, an empty or absent one as absent; every other annotation but idled-at and every other label is as before |
| Patches.StripMemberWritten | internal/handlers/unidler/checks.go:93-101 | what a strip computed from a stale snapshot leaves in an annotation |
| Patches.OwnMiddleware | internal/handlers/idler/service-kubernetes.go:270-275 | the entry an ingress gets, and the one a strip takes out, is the name without double hyphens followed by "-aergia@kubernetescrd" |
| Patches.SameMiddleware | internal/handlers/unidler/checks.go:86-87 | names that differ in a doubled hyphen get the same annotation and strip |
| Patches.WokenCount | internal/handlers/unidler/unidler.go:151-179 | the count an idled deployment at 0 comes back to: the recorded one when positive, 1 when absent, unreadable or not positive; one beyond int32 leaves it as it is |
| Patches.LoopStep | internal/handlers/unidler/unidler.go:146-187 | one round of a patching loop extends the set of patched objects by one, fault or not |
| Idlers.Idler.Decide | internal/handlers/idler/service-kubernetes.go:33-175 | everything before the first write decides to idle iff no observed Running or Pending build, the listing answered, and a force flag or an old pod and (unless skipped) no hits |
| Idlers.Idler.CheckBuilds | internal/handlers/idler/service-kubernetes.go:49-64 | the loop with its break finds a Running or Pending build iff there is one |
| Idlers.Idler.CheckPods | internal/handlers/idler/service-kubernetes.go:81-117 | the pod loop finds a pod strictly older than the interval iff there is one before the first failed listing |
| Idlers.Idler.CountHits | internal/handlers/idler/service-kubernetes.go:120-168 | the counter over both queries, none when either fails |
| Idlers.Idler.ScaleDownPatch | internal/handlers/idler/service-kubernetes.go:198-228 | the patch that scales a deployment to 0 and records the count, never 0 |
| Idlers.Idler.IdleDeployments | internal/handlers/idler/service-kubernetes.go:191-239 | every listed deployment is idled from its snapshot unless its own patch fails, none in a dry run |
| Idlers.Idler.ErrorCodePatch | internal/handlers/idler/service-kubernetes.go:264-287 | the patch that adds 503 and the middleware entry to an ingress |
| Idlers.Idler.AnnotateEach | internal/handlers/idler/service-kubernetes.go:261-298 | exactly the ingresses before the first failed patch are annotated |
| Idlers.Idler.PatchIngress | internal/handlers/idler/service-kubernetes.go:246-316 | the namespace is labelled iff at least one ingress was listed and all were annotated; any failure is reported |
| Idlers.Idler.KubernetesServiceIdler | internal/handlers/idler/service-kubernetes.go:25-189 | the new cluster: deployments are scaled only after the decision and successful ingress patching; other namespaces are untouched |
| Idlers.Idler.ServiceOne | internal/handlers/idler/service.go:51-77 | a namespace without both auto-idle labels at "1" and a type label is left alone |
| Idlers.Idler.ServiceIdler | internal/handlers/idler/service.go:21-78 | the final cluster is the product of the idler on each opted-in namespace alone, whatever the order |
| Idlers.FirstFault | internal/handlers/idler/service-kubernetes.go:288-291 | the number of ingresses patched before the first failure |
| Decision.DecidedIff | internal/handlers/idler/service-kubernetes.go:33-175 | the decision on phases, ages, samples, annotations and flags: no observed running or pending build, deployments listed, and a force flag, or an old pod before the first failed listing and (unless skipped) a counter at a multiple of 2^64 |
| Decision.NoHitsIff | internal/handlers/idler/service-kubernetes.go:154-174 | for counts that do not overflow no hits means that every sample of both queries is zero |
| Decision.AnnotatedOkIff | internal/handlers/idler/service-kubernetes.go:246-316 | patchIngress goes through iff it is skipped, or its List answers and no patch of a selected ingress or of its namespace fails |
| Decision.AnnotatedIngressIff | internal/handlers/idler/service-kubernetes.go:261-298 | an ingress is annotated iff it is selected and neither its patch nor that of a selected one listed before it fails |
| Decision.AnnotatedNamespaceIff | internal/handlers/idler/service-kubernetes.go:299-313 | the namespace is labelled iff there is a selected ingress and no patch fails |
| Decision.IdledIff | internal/handlers/idler/service-kubernetes.go:25-189 | a deployment is idled by a run iff it is selected, its patch does not fail, patchIngress goes through and the decision on raw inputs is to idle; otherwise it is unchanged |
| Decision.PassIff | internal/handlers/idler/service.go:51-77 | a pass runs the unforced idler on a namespace iff it is selected, has a type label and both auto-idle labels are "1"; otherwise it leaves it alone |
| Decision.PassSparesBusy | internal/handlers/idler/service.go:62 | a pass leaves alone every namespace that has had hits or whose hits cannot be counted |
| IdlerFacts.DryRunWritesNothing | internal/handlers/idler/service-kubernetes.go:195-237 | a dry run changes nothing, whatever is listed and whatever fails |
| IdlerFacts.IdleRunDeployment | internal/handlers/idler/service-kubernetes.go:119-187 | a deployment is idled iff the run got that far, the selector picks it and its own patch did not fail; otherwise it is unchanged |
| IdlerFacts.IdleRunIngress | internal/handlers/idler/service-kubernetes.go:176-186 | when deployments are idled, every selected ingress is annotated and the namespace labelled, and no other ingress changes |
| IdlerFacts.IdleRunNamespace | internal/handlers/idler/service-kubernetes.go:299-313 | the namespace object is untouched or marked idled |
| IdlerFacts.SumOfNonNegative | internal/handlers/idler/service-kubernetes.go:154-168 | a sum of non-negative samples is zero iff every sample is |
| IdlerFacts.HitsWrap | internal/handlers/idler/service-kubernetes.go:154-168 | the counter is the true sum up to a multiple of 2^64 |
| IdlerFacts.QuietMeansZero | internal/handlers/idler/service-kubernetes.go:154-174 | for non-negative samples the environment counts as quiet iff their sum is a multiple of 2^64, and the sum is 0 iff all are |
| IdlerFacts.WrappingHits | internal/handlers/idler/service-kubernetes.go:154-174 | printable samples, two of 2^63 hits that Atoi clamps and one of 2, that are not zero and yet count as quiet |
| Unidlers.Unidler.Unidle | internal/handlers/unidler/unidler.go:131-212 | the new cluster and the released lock; a failed deployment patch stops nothing, a failed listing everything |
| Unidlers.Unidler.ScaleUp | internal/handlers/unidler/unidler.go:146-187 | every listed deployment is woken from its snapshot unless its own patch fails |
| Unidlers.Unidler.ScaleUpPatch | internal/handlers/unidler/unidler.go:147-177 | a patch only for an idled deployment at 0: the recorded count when it is a positive number, otherwise 1 |
| Unidlers.Unidler.RemoveCodeFromIngress | internal/handlers/unidler/checks.go:62-123 | every ingress of the namespace is stripped unless its own patch fails |
| Unidlers.Unidler.RemoveCodePatch | internal/handlers/unidler/checks.go:76-109 | the patch that removes both entries, leaving out annotations that would not change |
| Unidlers.Unidler.CheckForceScaled | internal/handlers/unidler/checks.go:20-38 | true iff the listing answered and some deployment is force-scaled |
| Unidlers.Unidler.IngressHandler | internal/handlers/unidler/handler.go:119-156 | an unidle starts, and the lock is taken, iff the request is allowed and verified, nothing is force-scaled and the lock is free |
| UnidlerFacts.UnidledDeployment | internal/handlers/unidler/unidler.go:142-187 | a deployment is woken iff it is watched and its own patch goes through; no other failure matters |
| UnidlerFacts.UnidledIngress | internal/handlers/unidler/unidler.go:198 | an ingress is stripped even when deployments could not be scaled |
| UnidlerFacts.UnidledNamespace | internal/handlers/unidler/unidler.go:200-211 | the namespace is marked not idled unless its patch or the first listing fails |
| UnidlerFacts.MayStartIff | internal/handlers/unidler/handler.go:136-151 | the last gates let a request through iff the namespace is not locked and, when the listing answers, no deployment is labelled force-scaled=true |
| Reconcilers.Reconciler.Reconcile | internal/controllers/idling_controller.go:44-103 | the first trigger is handled and consumed, the others stay; the lock is released without having been taken |
| Reconcilers.ReconciledCases | internal/controllers/idling_controller.go:52-101 | which label wins, with which flags the idler runs, and which label is then removed |
| ReconcilerFacts.HandledKeepsTriggers | internal/controllers/idling_controller.go:52-101 | the work for a trigger leaves all three trigger labels alone |
| ReconcilerFacts.ReconcileDropsOne | internal/controllers/idling_controller.go:52-102 | each Reconcile with work uses up exactly one trigger, none when its label patch fails; without a trigger it is the identity |
| ReconcilerFacts.ReconcileDrains | internal/controllers/idling_controller.go:44-103 | at most three Reconciles act; together they are force-scale, force-idle, unidle composed in that order |
| ReconcilerFacts.BuildConsumesTrigger | internal/controllers/idling_controller.go:52-67 | a forced idle stopped by a running build changes nothing but its own trigger label |
| Protocol.NextSound | internal/handlers/unidler/unidler.go:131-212 | every step keeps snapshots made of versions that existed, and never creates or deletes an object |
| Protocol.RunKeeps | internal/handlers/unidler/unidler.go:131-212 | a property that each of the six patches preserves holds of every version in every run |
| Sequential.UnidleIsRun | internal/handlers/unidler/unidler.go:131-212 | every call of Unidle, failures and the deferred delete of the lock included, is a run of moves of one thread of Protocol |
| Sequential.UnidleWorkIsRun | internal/handlers/unidler/unidler.go:131-212 | the same up to the delete, for Lists that show any earlier versions |
| Sequential.HandlerIsRun | internal/handlers/unidler/handler.go:136-156 | an admissible, verified request that nothing interrupts starts a run and takes the lock exactly when the handler does |
| Sequential.ReconcileIsRun | internal/controllers/idling_controller.go:44-103 | every Reconcile is an idler or Unidle thread followed by a thread that clears the label, the lock included |
| Sequential.IdleIsRun | internal/handlers/idler/service-kubernetes.go:25-189 | every call of KubernetesServiceIdler, failures included, is a run of one thread of Protocol |
| Sequential.StaleIdleIsRun | internal/handlers/idler/service-kubernetes.go:25-189 | the same for Lists that show any earlier versions |
| Sequential.IngressIsRun | internal/handlers/idler/service-kubernetes.go:246-316 | the same for patchIngress with its early returns |
| Sequential.StripIsRun | internal/handlers/unidler/checks.go:62-123 | the same for removeCodeFromIngress |
| Sequential.LoopRun | internal/handlers/unidler/unidler.go:146-187 | a whole patching loop is a run of single patches |
| Safety.IngressListsConserved | internal/handlers/idler/service-kubernetes.go:262-287 | under every interleaving, stale snapshot and failure the users' entries of both annotations never change nor move, and no empty entry appears |
| Safety.UnidleRestoresLists | internal/handlers/unidler/checks.go:72-109 | after any run, one undisturbed unidle leaves exactly the users' entries |
| Safety.IdledIsRestorable | internal/handlers/idler/service-kubernetes.go:204-229 | under every interleaving an idled deployment is watched, at 0, and records a count in 1..2^31-1 |
| Safety.DeploymentPreserved | internal/handlers/unidler/unidler.go:146-179 | each patch, from any valid snapshot onto any valid version, keeps that invariant |
| Safety.CountsConserved | internal/handlers/idler/service-kubernetes.go:196-225 | under every interleaving a deployment has, and would come back to, only 0 or 1, the count it started with or the one it remembered at the start |
| Safety.RunFrame | internal/handlers/unidler/checks.go:93-111 | no run changes a label, annotation or replica count that the controller does not own |
| Safety.SelectionStable | resources/selectors.yaml:1-60 | a selector that reads no controller label gives the same verdict on every version |
| Confluence.WakeFixpoint | internal/handlers/unidler/unidler.go:147-179 | a woken deployment is not changed by waking it again, from the old or the new snapshot |
| Confluence.StripFixpoint | internal/handlers/unidler/checks.go:76-111 | a stripped ingress is not changed by stripping it again, from the old or the new snapshot |
| Confluence.TargetReached | internal/handlers/unidler/unidler.go:131-212 | from every snapshot and version that can arise together, an unidle patch produces the target |
| Confluence.StepSettles | internal/handlers/unidler/unidler.go:131-212 | every step of any run, failed or not and from any versions, keeps each object at its original or its target |
| Confluence.StepConverges | internal/handlers/unidler/unidler.go:131-212 | and what a run without a failed call has passed stays at its target, whatever fails in the others |
| Confluence.UnidlesConfluent | internal/handlers/unidler/unidler.go:131-212 | once any one of any number of interleaved unidles has finished without a failed call, the cluster is what a single run produces, whatever failed in the others |
| Confluence.NoThirdVersion | internal/handlers/unidler/checks.go:62-123 | whatever fails, no object has any version but its original and the one a single successful run gives it |
| WakePath.StepGuarded | internal/handlers/idler/service-kubernetes.go:246-316 | every single step of such runs keeps what all live runs rely on and the way back up |
| WakePath.IdleKeepsGuard | internal/handlers/idler/service-kubernetes.go:261-298 | what one idle relies on survives the writes of another |
| WakePath.UnidleKeepsGuard | internal/handlers/unidler/unidler.go:146-211 | what one Unidle relies on survives the writes of another |
| WakePath.WakePathKept | internal/handlers/idler/service-kubernetes.go:176-186 | at every step and crash of runs in which no idle overlaps an Unidle, first Lists of Unidle show idled deployments as idled and patches of those succeed, an idled deployment implies that all selected ingresses carry both entries and the namespace is labelled |
| UnidlerFacts.UnidledFromDeployment | internal/handlers/unidler/unidler.go:142-187 | with a first List that may be stale, a deployment is patched iff it is listed as watched and its patch goes through |
| UnidlerFacts.UnidledFromIngress | internal/handlers/unidler/checks.go:62-123 | with an ingress List that may be stale, an ingress is stripped from its listed version |
| IdlerFacts.IdleRunFromDeployment | internal/handlers/idler/service-kubernetes.go:119-187 | with Lists that may be stale, a deployment is idled from its listed version iff the run got that far, it was listed and its own patch did not fail |
| UnidlePath.CarriesAfterStrip | internal/handlers/unidler/checks.go:76-109 | an ingress still carries both entries after a strip iff it did before and the listed version misses neither annotation and lists neither entry, or has neither annotation |
| UnidlePath.UnidleKeepsPathIff | internal/handlers/unidler/unidler.go:142-211 | a complete Unidle with any failures and Lists of any age keeps a way back up iff it does not both miss an idled deployment and cut the path |
| UnidlePath.FreshUnidleKeepsPathIff | internal/handlers/unidler/unidler.go:179-211 | the same with up-to-date Lists: lost iff the patch of an idled deployment fails while some selected ingress is stripped or its namespace unlabelled |
| UnidlePath.OldIngressesKeepPath | internal/handlers/unidler/checks.go:93-101 | an Unidle whose ingress List shows nothing to take and whose namespace patch fails keeps the way back, whatever it misses |
| UnidlePath.IdleKeepsPath | internal/handlers/idler/service-kubernetes.go:176-186 | a complete idle keeps a way back up whatever fails in it and however old its Lists are |
| UnidlePath.AnswersArePossible | internal/handlers/idler/service-kubernetes.go:204-229 | whatever a List may show after any run meets what these results ask of Lists |
| UnidlePath.CallsKeepPathIff | internal/handlers/idler/service-kubernetes.go:176-186 | over any sequence of complete runs with Lists of any age there is a way back up after each of them iff no Unidle misses an idled deployment and cuts the path |
| StepPath.WriteBreaksIff | internal/handlers/unidler/checks.go:93-111 | for each kind of patch, from any version onto any version, exactly when it takes the way back |
| StepPath.RunKeepsPathIff | internal/handlers/idler/service-kubernetes.go:176-186 | in every run, however its parts overlap and fail, there is a way back up at every step iff no write takes it |
| LostPath.OverlapLosesPath | internal/handlers/idler/service-kubernetes.go:176-186 | an unidle inside an idle leaves an idled deployment and a stripped ingress |
| LostPath.StaleListLosesPath | internal/handlers/unidler/unidler.go:142 | so does an unidle after an idle whose List is out of date |
| LostPath.FailedPatchLosesPath | internal/handlers/unidler/unidler.go:179-198 | so does an unidle whose deployment patch fails, from a namespace that could be woken |
| Lock.LockNeverOrphaned | internal/handlers/unidler/handler.go:149-155 | with every operation a separate step, a present lock always has a handler-started run that will delete it |
| Lock.UnidleReturns | internal/handlers/unidler/unidler.go:131-212 | every run of Unidle ends after a bounded number of its own moves, whatever else happens, so its lock is deleted |
| Lock.LockIsExclusive | internal/handlers/unidler/handler.go:142-155 | with Load, LoadOrStore and `go` as separate steps and no reconciler unidle, there is never more than one run pending or running iff no request loads while another stands before its LoadOrStore, and then the lock is present iff one run is pending or running |
| Lock.ClaimsBecomeRuns | internal/handlers/unidler/handler.go:149-155 | after a race both requests can go on to run Unidle at the same time |
| LostLock.ReconcilerLetsSecondIn | internal/controllers/idling_controller.go:86-88 | without any race, a reconciler unidle deletes the lock of a run and lets a second one in |
| Lock.TwoRunsAtOnce | internal/handlers/unidler/handler.go:149-155 | as written, two racing requests start two runs |
| Sticky.IdleSticks | internal/handlers/idler/service-kubernetes.go:205-218 | no patch but a wake removes the force-scaled label or raises a count |
| Sticky.ForceScaleSticks | README.md:22-23 | from a force-scaled environment in which no Unidle may still scale up, and without an unidle label, if every request is answered from versions recent enough, every request is told that it is force-scaled, no unidle starts, the label stays and no count rises, whatever fails and however old the versions others work from |
| Sticky.RecentInforms | internal/handlers/unidler/checks.go:20-38 | as long as the label has stayed, a recent List of the deployments tells the request so |
| Forced.ForceIdleComesBack | README.md:19-20 | a force-idle that gets through scales to 0 at once and holds no request back that was not held back before; the next Unidle restores the count and takes the label off |
| Forced.LandedIsStuck | internal/handlers/idler/service-kubernetes.go:205-229 | the patch of a force-scale that lands, computed from any version and with requests, idles and finishing Unidles in any state beside it, leaves the deployment at 0 and force-scaled with no unidle on the way |
| Forced.LandedStaysDown | README.md:22-23 | from that single step on, in every run in which requests are shown the deployment as the patch left it or later, it stays at 0 and no unidle starts |
| Forced.UnidledIsHeld | internal/handlers/unidler/unidler.go:131-212 | an environment that an Unidle has woken before is covered again once that Unidle has returned |
| Forced.ForceScaleTakesHold | internal/controllers/idling_controller.go:52-67 | in any running system in which no Unidle may still scale up a deployment, a force-scale Reconcile that gets through scales to 0 at once and leaves the deployment force-scaled with no unidle on the way |
| Forced.ForceScaleStaysDown | README.md:22-23 | in every run of requests, idles and force labels after that Reconcile in which requests are shown the deployment as it was left or later, it stays at 0 and no unidle starts |
| Forced.StaleListUnsticks | internal/handlers/unidler/checks.go:20-38 | right after a force-scale, a request whose List is out of date starts an unidle |
| Forced.UninformedStarts | internal/handlers/unidler/handler.go:136-156 | a request that is not told so goes on to start an unidle, unless the namespace is locked |
| Replicas.TurnRemembers | internal/handlers/unidler/unidler.go:146-165 | each turn keeps the count or the memory of it, except that idling at 0 overwrites the memory with 1 |
| Replicas.CallsAreTurns | internal/handlers/idler/service-kubernetes.go:191-239 | a sequence of whole-namespace runs acts on a deployment as its own sequence of turns |
| Replicas.ReplicasConserved | README.md:25-26 | after any successful runs a deployment is at 0 or the count it comes back to, which is the original iff that was 1 or it was never idled at 0, and 1 otherwise |
| Replicas.ReidledForgets | internal/handlers/idler/service-kubernetes.go:83-87 | two idles in a row that go through and pick a deployment make it come back as one replica, whatever it ran with |
| Replicas.ForcedTwiceForgets | internal/handlers/idler/service-kubernetes.go:83-87 | two forced idles of a namespace without ingresses do that |
| Access.CheckAgents | internal/handlers/unidler/restrictions.go:8-18 | true iff there is a user agent and some pattern matches it |
| Access.CheckIPList | internal/handlers/unidler/restrictions.go:20-35 | true iff a listed address is a client address, True-Client-IP shadowing X-Forwarded-For |
| Access.CheckAgentAnnotations | internal/handlers/unidler/restrictions.go:59-72 | the list in force is the ingress's, else the namespace's, else the global one |
| Access.CheckIPAnnotations | internal/handlers/unidler/restrictions.go:74-89 | the same precedence for addresses |
| Access.CheckAccess | internal/handlers/unidler/restrictions.go:37-57 | allowed iff the IP is not blocked and is allowed or the agent is not blocked; allowed agents play no part |
| Access.MayUnidleIff | internal/handlers/unidler/restrictions.go:8-89 | the whole decision on raw annotations, global lists and request |
| Access.KeyShadows | internal/handlers/unidler/restrictions.go:59-89 | a key on the ingress hides the namespace's value and the global list, a key on the namespace the global list |
| Access.IngressShadows | internal/handlers/unidler/restrictions.go:59-89 | where the ingress has the keys neither the namespace nor the global lists matter |
| Access.ClientShadows | internal/handlers/unidler/restrictions.go:20-26 | a True-Client-IP hides X-Forwarded-For |
| Access.BlockedBeatsAllowed | internal/handlers/unidler/restrictions.go:39-42 | a client address in the block list in force is turned away whatever allows it |
| Access.AllowedGetsIn | internal/handlers/unidler/restrictions.go:43-46 | a client address in the allow list in force that is not blocked gets in whatever its agent |
| Access.NoAgentNoBlock | internal/handlers/unidler/restrictions.go:8-18 | for a request without an agent no list of blocked agents matters |
| Access.AllowsMonotone | internal/handlers/unidler/restrictions.go:37-57 | antitone in the block lists, monotone in the IP allow list |
| Access.AllowListTurnsAway | internal/handlers/unidler/restrictions.go:76-79 | a request missing from the allow list is turned away iff its IP or agent is blocked |
| Access.AllowListWitness | internal/handlers/unidler/restrictions.go:76-79 | a request missing from the allow list that is let through |
| Verifier.DecodesTo | internal/handlers/unidler/helpers.go:48-58 | a text decodes to given bytes iff it is their hex encoding up to the case of its letters |
| Verifier.VerifierAcceptsSigned | internal/handlers/unidler/helpers.go:41-59 | the verifier accepts exactly the case variants of what the signer emits |
| Verifier.SignatureTransfers | README.md:55 | a signature works for another namespace or secret iff the two HMACs are equal |
| Verifier.CallbackVerifies | internal/handlers/unidler/handler.go:220-242 | the signature handed out with an unverified answer verifies the next request |
| Verifier.VerifiedIff | internal/handlers/unidler/handler.go:220-242 | verified iff verification is off, the ingress's or the namespace's annotation reads as true, or the header is the signature up to the case of its letters; an ingress annotation that does not read as true leaves it to the namespace |
| Verifier.EncodedAt | internal/handlers/unidler/helpers.go:57-59 | the signature shows each byte as two digits of 0-9a-f, the high one first |

## Left out

- HTTP serving, headers, templates, metrics, logging, flags and reading list files: plumbing around the protocol.
- The choice of the ingress by URL host (internal/handlers/unidler/handler.go:109-117): the ingress is an input of `IngressHandler`, and so is an existing namespace.
- The Kubernetes client, its cache, cron and Prometheus: their answers and failures are inputs; in `Protocol` a List may return any earlier version of each object.
- The wait for running pods (internal/handlers/unidler/unidler.go:190-196): it never affects what is written.
- The CLI idler (internal/handlers/idler/cli-kubernetes.go).
- Outside edits and the creation or deletion of objects during a run.
- SHA-256, HMAC and Go's regular expressions are arbitrary functions; regular expressions that fail to compile count as no match.
- time.ParseDuration is a map from texts to durations, and pod ages are inputs.
- One clock reading per idler run instead of one per deployment; it only affects the idled-at annotation.
- Label and annotation keys are a datatype rather than strings, and building a selector from its file is the identity; operators for numeric comparison are absent.
- spec.replicas is never nil, and the values of labels and annotations are not validated by the cluster.
- In `Protocol` the outcome of the idler's checks is arbitrary, so results about all runs hold for any checks; the decision itself is in `Idlers`.
- Methods run without interruption; interleaving is the subject of `Protocol`, which `Sequential` connects to them.
- RunSound: object creation is absent, so the set of objects of a namespace never changes.
- WakePathKept: assumes that no idle overlaps an Unidle, that first Lists of Unidle show idled deployments as idled and that patches of those succeed, because `LostPath` shows it false otherwise; the exact conditions are `CallsKeepPathIff` for complete runs one after the other and `RunKeepsPathIff` for single steps of any run.
- LockIsExclusive: leaves out crashes of the process, which lose the lock table, and unidles from the reconciler, for which `LostLock` shows it false.
