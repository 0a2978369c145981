# crd-bootstrap, modelled and verified

crd-bootstrap is a Kubernetes controller. A `Bootstrap` names a source of CustomResourceDefinitions
(a Helm chart, a ConfigMap, a GitLab or GitHub release, a URL) and a version constraint; the
controller keeps the newest admissible CRDs installed, refuses updates that break what is installed,
and removes what it installed when the Bootstrap goes away.

This project models the controller as one system and proves what it keeps over every run: any number
of Bootstraps, sharing CRD names or not, with any step of a reconcile failing, applies stopping
half-way, patches being lost, and other parties changing sources, specs and deletion marks between any
two steps. Only one reconcile is in flight at a time, as the controller sets no concurrency.

## How it is built

| module | what it holds |
|---|---|
| `Semver` | version precedence (section 11 of Semantic Versioning 2.0.0, build metadata ignored as in section 10), proved a total preorder and equal to a declarative reading of the standard |
| `Detector`, `Gate` | breaking-change detection for one CRD and for a batch; template validation |
| `Manifest`, `HelmBundle` | multi-document streams (section 9.1.2 of YAML 1.2.2), the kind filter, the chart walk that writes a stream |
| `HelmVersions`, `Sources`, `Answers` | Helm's filter, sort and choice; the five sources and the chain that links them; what each answers and fetches |
| `Objects` | Bootstraps in memory: the counter map is a reference, and deep copies share none |
| `Machine` | the state machine: one choice is one step of a reconcile, or one act of somebody else |
| `Reconciler` | the controller as imperative code, proved to do exactly what the machine does |
| `VersionSafety`, `Ownership`, `RollForward`, `Quiescence`, `Counters`, `Delivery`, `Digests`, `Conditions`, `Progress` | the properties of whole runs |
| `Scenarios` | one run from a fresh start for each promise that the code breaks |
| `Reachable` | the invariants from a fresh start, and for a queue of reconciles served by the imperative code |
| `Api`, `Basics`, `Libraries` | the data; sequence facts; the library functions, as one record of arbitrary functions |

A run is a sequence of choices and `Machine.Exec` is the state it leads to; a choice that does not fit
the phase changes nothing, so a statement about every sequence of choices is one about every run and
every interleaving. `Reconciler.BootstrapReconciler.Reconcile` ties the two levels: a call leaves the
store, the clusters, the sources and the history exactly where the run it returns leaves them, that run
starts this Bootstrap's reconcile, and every I/O call in it turns out as the caller's script says. The
history in the state (last writer of a CRD, recorded reconciles, and so on) exists only to state
properties; no step reads it.

`dafny verify dfyconfig.toml` checks everything.

## Where the code and its documentation disagree

For each of these the exact condition is proved under which the code does what is promised, and where
that condition is about a state, a run from a fresh start reaches a state that fails it.

- Roll forward only (the repository's README.md:97-99) holds in full, for each Bootstrap with versioned
  sources whatever the others do: `RollForward.OnlyRollsForward`.
- `LastAppliedCRDNames` is documented as the number of times a CRD was applied
  (api/v1alpha1/bootstrap_types.go:208-210). It falls short of that by the successes whose final patch
  is lost. And once the map is non-nil, `applied` is the status map itself, so a reconcile that fails
  after labelling is counted as well: `Counters.CounterBalance`, `Counters.CounterExactly`,
  `Scenarios.CounterFallsShort`, `Scenarios.CounterExceeds`.
- A failed validation is said to stop reconciliation until a user intervenes (README.md:256-258). The
  code returns an error and the Bootstrap stays due, as after every other failure:
  `Progress.FailedValidationIsRetried`, `Quiescence.FailuresAreRetried`, `Scenarios.ValidationIsRetried`.
- The Ready reason `BreakingChangeDetected` goes with a list of changes (README.md:303-306), except when
  validation panics on a version without a schema while that reason is left over from before:
  `RollForward.RulingIsReasonedExactly`, `RollForward.ReasonsStayFounded`, `Scenarios.ReasonGoesStale`.
- GitLab panics on every refused request, an unknown project, release or file included: the nil body is
  closed before the error is looked at. Helm panics when no listed version satisfies the constraint. A
  panic leaves the Ready condition as it was, also when it was true: `Sources.GitLabPanicsExactly`,
  `Sources.HelmPanicsExactly`, `Conditions.ReadyTellsOutcome`, `Scenarios.ReadyStaysTrue`.
- A URL source with a pinned digest is never settled: `Sources.AppliedSettlesExactly`. The code says
  that this is intended (pkg/source/url/url.go:87-91).
- Only content that corresponds to a required digest is said to be applied (README.md:20-21). The digest is
  compared when HasUpdate looks at the URL, and not again when FetchCRD does: `Digests.DigestMatchesExactly`,
  `Scenarios.OtherDigestIsApplied`.
- A manifest that lists one CRD twice can lose a version for an instant, even with breaking changes
  enforced: `VersionSafety.InstantSafetyExactly`, `Scenarios.TwinsLoseVersion`.
- A chart file without a final newline, unless it is the last, or one with a marker line of its own, is
  not read back as one document: `Manifest.RoundTripExactly`, `HelmBundle.BundleDocuments`.
- Pruning removes the CRDs of a Bootstrap (README.md:266-267), and those of its namesakes in other
  namespaces, and none in a remote cluster: `Ownership.PruneIsExact`, `Scenarios.NamesakePrunes`,
  `Scenarios.RemoteIsNotPruned`.
- All further operations are said to function as they are with a remote cluster (README.md:297-298). The
  gate compares with the local cluster only, so enforcing breaking changes protects a remote CRD exactly
  when the local CRD of the same name has all its versions: `VersionSafety.RemoteClusterIsNotJudged`,
  `VersionSafety.GateProtectsExactly`, `VersionSafety.MirroredVersionsNeverShrink`,
  `Scenarios.RemoteLosesVersion`.
- A Bootstrap whose deletion is requested before the first patch of its finalizer leaves its CRDs behind,
  and only then: `Ownership.OrphanedExactly`, `Ownership.EarlyDeletionOrphans`,
  `Scenarios.FirstWriteIsOrphaned`.

## Assumptions

- Library functions are arbitrary but deterministic: parsing of versions and constraints, the schema
  diff, the template validator, YAML decoding, quoting and SHA-256. Every theorem holds for all of them.
- Reads are current. A write to one CRD takes effect at once and overwrites labels and versions; a
  delete takes effect at once. A patch happens as a whole or not at all and writes the fields that
  differ between the pre-image and the object; the API server refuses to add a finalizer to an object
  that is being deleted.
- Nobody but the controller writes CRDs, Bootstrap statuses or the controller's finalizer. Others may
  do everything else at any time, except that a Bootstrap is not deleted and created anew while a
  reconcile of it is in flight.
- A controller that stops in the middle of a reconcile leaves what one leaves whose next call fails and
  whose patch is lost.
- A cluster reached through a kubeconfig is a target of its own, apart from the local one.

## Model

| member | source | states |
|---|---|---|
| Semver.PrecedenceIsTotalPreorder | pkg/source/helm/helm.go:240-240 | the order behind Equal and GreaterThan is total and transitive for all pre-release lists, and ties are exactly the pairs that differ in build metadata only |
| Semver.GreaterThanMeetsSection11 | pkg/source/helm/helm.go:268-270 | GreaterThan is exactly precedence as section 11 words it, stated without any comparison function: the first differing identifier decides, numbers by value, text by its first differing character, numbers below text, fewer identifiers below more, a pre-release below its release |
| Semver.PrereleaseIsOrdered | pkg/source/configmap/source.go:130-130 | pre-release lists of any length are totally ordered |
| Detector.CompareSchemas | pkg/breaking/detector.go:62-104 | the loop yields the descriptions of exactly the breaking entries in order, none when the report is nil or its breaking total is zero, and fails when the comparison does |
| Detector.DetectBreakingChanges | pkg/breaking/detector.go:23-60 | the map and the loops yield the contributions of the schema-bearing old versions, concatenated in their order, or fail |
| Detector.ReportsExactly | pkg/breaking/detector.go:33-57 | an entry is reported if and only if some schema-bearing old version has no schema under its name in the new CRD and the entry says it is removed, or the two schemas differ, the total is positive and the entry names the version and describes a breaking change, old value before new |
| Detector.ReportsInOrder | pkg/breaking/detector.go:33-59 | the report of a list of old versions is that of its parts in their order, and fails if one of them does |
| Detector.LastSchemaWins | pkg/breaking/detector.go:25-31 | the schema compared against is that of the last new version of the name that has one |
| Detector.NoBreakingEntries | pkg/breaking/detector.go:90-101 | the filter is empty exactly when no entry is breaking |
| Detector.DetectFailsExactly | pkg/breaking/detector.go:49-52 | detection fails exactly when the comparison of two differing schemas of one version name fails |
| Detector.ContributionEmptyExactly | pkg/breaking/detector.go:34-56 | one old version adds nothing exactly when it has no schema, or a same-named new schema is equal to it or compares without a breaking entry |
| Detector.DetectsNothingExactly | pkg/breaking/detector.go:33-59 | nothing is reported exactly when every schema-bearing old version has an acceptable new schema under its name |
| Detector.NothingReportedLosesNoVersion | pkg/breaking/detector.go:38-43 | an empty report means that every schema-bearing version name of the old CRD is one of the new |
| Detector.SelfComparisonIsClean | pkg/breaking/detector.go:45-47 | a CRD with distinct version names reports nothing against itself |
| Detector.DetectIgnoresNewOrder | pkg/breaking/detector.go:25-31 | with distinct names, permuting the new versions leaves the report as it is |
| Detector.AddedVersionsAddNothing | pkg/breaking/detector.go:33-43 | adding versions under names the old CRD lacks leaves the report as it is, entries and failures alike |
| Gate.DetectObjectChanges | internal/controller/bootstrap_controller.go:325-362 | the object loop yields the concatenated reports of the installed CRDs in batch order, or fails at the object whose I/O or comparison fails |
| Gate.BatchIsCleanExactly | internal/controller/bootstrap_controller.go:342-361 | a batch reports nothing exactly when every object is not installed or reports nothing |
| Gate.BatchReportsExactly | internal/controller/bootstrap_controller.go:325-362 | detection that succeeds lists exactly what is to be reported of the batch's CRDs that are installed |
| Gate.BatchReportsInOrder | internal/controller/bootstrap_controller.go:327-358 | the report of a batch is that of its parts in their order, and fails if one of them does |
| Gate.BatchFailsExactly | internal/controller/bootstrap_controller.go:330-356 | detection fails if and only if an object cannot be read or looked up or a comparison fails; a failure is never taken for a change |
| Gate.CleanBatchKeepsVersions | internal/controller/bootstrap_controller.go:353-361 | a batch that reports nothing keeps every schema-bearing version name of every CRD it would overwrite |
| Gate.UninstalledObjectsAddNothing | internal/controller/bootstrap_controller.go:342-348 | an object whose CRD is not installed changes nothing, wherever it stands in the batch |
| Gate.DetectionIsLocal | internal/controller/bootstrap_controller.go:342-342 | two worlds with the same local CRDs give the same report, whatever their remote clusters hold |
| Gate.ValidateObjects | internal/controller/bootstrap_controller.go:285-323 | the nested loops stop at the first object or version that fails or panics, with that verdict |
| Gate.ValidExactly | internal/controller/bootstrap_controller.go:287-322 | validation passes exactly when there is no template, or every version of every object has a validator that accepts the template of its kind, if there is one |
| Gate.FailureInvalidates | internal/controller/bootstrap_controller.go:296-304 | an object that cannot be marshalled or decoded makes the batch invalid, unless an earlier one has decided already |
| Gate.PanicsExactly | internal/controller/bootstrap_controller.go:307-318 | validation panics if and only if there is a template and a version without a schema field is reached, every version before it being accepted |
| Manifest.ReadObjects | internal/controller/apply.go:42-55 | the loop keeps the CRDs of the decoded documents |
| Manifest.KeepCrdsExactly | internal/controller/apply.go:46-53 | exactly the CRDs are kept, each as often as it occurs, in their order |
| Manifest.CrdsInOrder | internal/controller/apply.go:42-55 | the CRDs read are those of the documents one after the other, each as often as it stands in them |
| Manifest.ReadsExactlyTheCrds | internal/controller/apply.go:42-53 | reading fails exactly when some document does not parse; otherwise exactly the objects of CRD kind that stand in some document are read |
| Manifest.RoundTripExactly | pkg/source/helm/helm.go:536-537 | splitting the written stream at document start and document end markers gives back the list of contents if and only if no content has a line with either marker and all but the last end their last line |
| HelmBundle.AppendFilesToCrds | pkg/source/helm/helm.go:508-541 | the inner walk appends a marker and the content of every file at or below the directory, in walk order, to what the file held |
| HelmBundle.WalkChart | pkg/source/helm/helm.go:156-167 | the outer walk appends, for each directory named "crds" as it is met, nested ones included, all files below it |
| HelmBundle.CreateCrdYaml | pkg/source/helm/helm.go:143-172 | the bundle file holds exactly the stream of the bundled files |
| HelmBundle.FilesAscend | pkg/source/helm/helm.go:517-540 | the files of one walk come in strictly ascending order of their paths |
| HelmBundle.BundleMultiplicity | pkg/source/helm/helm.go:156-167 | the bundle holds each file exactly as often as it has ancestor directories named "crds", and nothing that is not a file of the chart |
| HelmBundle.BundleIsInOrder | pkg/source/helm/helm.go:156-167 | the bundle is the files of one directory named "crds" after the other, directories and the files of each in strictly ascending order of their paths |
| HelmBundle.BundleDocuments | pkg/source/helm/helm.go:531-537 | the documents of the bundle are the bundled files' contents if and only if those are separable |
| HelmVersions.SortDescending | pkg/source/helm/helm.go:268-270 | sorting in place permutes the array so that no later version is above an earlier one |
| HelmVersions.GetLatestVersion | pkg/source/helm/helm.go:254-273 | given some candidate, the result is a listed version that parses and satisfies the constraint, and no listed candidate is above it |
| HelmVersions.EmptySelectionExactly | pkg/source/helm/helm.go:255-272 | the selection whose first element is taken is empty exactly when no listed version parses and satisfies the constraint |
| HelmVersions.LatestAreLevel | pkg/source/helm/helm.go:268-272 | two results that differ by the order of ties are of equal precedence |
| Sources.HelmHasUpdate | pkg/source/helm/helm.go:187-251 | Helm's HasUpdate gives the answer of its handler for some latest candidate, or panics when there is none |
| Answers.HelmAnswersExactly | pkg/source/helm/helm.go:187-251 | through a chain that ends at Helm: an update if and only if nothing is applied or some listed version satisfies the constraint and is strictly above what is applied, to a listed candidate that none exceeds; and exactly when it is an error, a panic or no update |
| Answers.DecidesExactly | pkg/source/configmap/source.go:110-140 | on one version: an error if it or the constraint does not parse, or the applied revision is needed and does not; an update to it if it satisfies the constraint and nothing is applied or something strictly below; else no update |
| Answers.ConfigMapAnswersExactly | pkg/source/configmap/source.go:88-141 | through a chain that ends at a ConfigMap: decided on the version it holds, an error if it or its key is missing |
| Answers.GitHubAnswersExactly | pkg/source/github/github.go:59-104 | through a chain that ends at GitHub: decided on the latest tag, an error if there is none |
| Answers.GitLabAnswersExactly | pkg/source/gitlab/gitlab.go:59-104 | through a chain that ends at GitLab: decided on the latest tag, a panic if a request is refused or the project unknown |
| Answers.UrlAnswersExactly | pkg/source/url/url.go:52-101 | through a chain that ends at a URL: an update if and only if the digest of its content is the required one, or none is required and it is not the applied one; the revision is that digest |
| Answers.FetchesExactly | pkg/source/github/github.go:175-187 | every source fetches a content if and only if its calls succeed and it has that content under the requested revision: Helm the bundle of the chart of that version, a ConfigMap its snapshot, GitLab the file behind the first link of that release, GitHub the file of that release |
| Answers.GitLabFetchesExactly | pkg/source/gitlab/gitlab.go:182-254 | the content is the file behind the first link with the name of the manifest in the release of the requested revision |
| Sources.HelmPanicsExactly | pkg/source/helm/helm.go:212-218 | Helm's HasUpdate panics exactly when the chart is listed, the constraint parses and no listed version satisfies it |
| Sources.DecideMeaning | pkg/source/configmap/source.go:105-141 | the shared decision offers the latest version exactly when it parses, satisfies the constraint, and is strictly above the applied revision if there is one |
| Sources.CheckForUpdate | pkg/source/github/github.go:59-104 | HasUpdate through the chain gives an answer that the machine's sources can give, with Helm's loop and sort carried out |
| Sources.FetchContent | pkg/source/helm/helm.go:49-108 | FetchCRD through the chain gives what the machine's sources have, with Helm's walk and GitLab's loop carried out |
| Sources.FindAsset | pkg/source/gitlab/gitlab.go:214-222 | the loop over the links stops at the first with the name of the manifest |
| Sources.AssetIsFirstLink | pkg/source/gitlab/gitlab.go:214-226 | the URL found is that of the first link of that name, empty if there is none |
| Sources.GitLabPanicsExactly | pkg/source/gitlab/gitlab.go:134-238 | HasUpdate panics if and only if its request is refused or the project unknown; FetchCRD if and only if a request is refused, the release is unknown or the first link of the name leads nowhere |
| Sources.ManagerServesFirst | cmd/main.go:100-106 | of the sources a spec sets, the manager asks and fetches from the first in the order Helm, ConfigMap, GitLab, GitHub, URL and ignores the others; it fails when none is set |
| Sources.ChainAgreement | pkg/source/helm/helm.go:49-56 | on a chain of any length HasUpdate and FetchCRD end at the same handler, the first whose field is set, and both fail when none is |
| Sources.FirstHandlerExists | pkg/source/url/url.go:35-42 | there is a first handler exactly when some field of the chain is set, and it is unique |
| Sources.OfferIsForward | pkg/source/gitlab/gitlab.go:84-103 | whatever a versioned source offers satisfies the constraint and is strictly above the applied revision |
| Sources.OfferIsStable | pkg/source/helm/helm.go:268-272 | with sources and spec unchanged, asking again gives the same decision and the same revision, up to equal precedence |
| Sources.AppliedSettlesExactly | pkg/source/url/url.go:86-100 | once an offer is recorded as applied, the same source offers more if and only if it is a URL source with a pinned digest |
| Sources.ConfigMapFetchesSnapshot | pkg/source/configmap/source.go:48-79 | fetching succeeds with a content exactly when one snapshot has that content and the requested revision under its version key |
| Objects.BootstrapObject.DeepCopyInto | api/v1alpha1/zz_generated.deepcopy.go:134-155 | the copy says what the original says, a nil map stays nil, and a map is a fresh one |
| Objects.BootstrapObject.DeepCopy | api/v1alpha1/zz_generated.deepcopy.go:41-48 | a fresh object that says the same and shares no map |
| Api.BumpAllCounts | internal/controller/bootstrap_controller.go:186-192 | the label loop raises each name's counter by its number of occurrences in the batch |
| Machine.ExecKeepsCoherent | internal/controller/bootstrap_controller.go:107-246 | in every reachable state the run in flight holds the stored status as its pre-image, carries the attempted revision and the labelled CRDs of its content, and lists exactly the owned CRDs when it prunes |
| Machine.MergeWritesObject | internal/controller/bootstrap_controller.go:119-125 | with no other status writer, the deferred patch stores status and finalizer exactly as they are in memory and keeps the spec as others left it |
| Machine.SameReconcile | internal/controller/bootstrap_controller.go:80-103 | within one reconcile the Bootstrap and its pre-image never change, nor whether it is a deletion |
| Machine.OnlyPatchesTouchStore | internal/controller/bootstrap_controller.go:119-125 | no step of the controller but a patch writes a stored Bootstrap, and none but a write or a delete touches a cluster |
| Reconciler.BootstrapReconciler.Reconcile | internal/controller/bootstrap_controller.go:80-246 | one call is one run of the machine that starts this Bootstrap's reconcile and nothing else, follows the script call by call, and ends with no reconcile in flight |
| Reconciler.BootstrapReconciler.ReconcileForward | internal/controller/bootstrap_controller.go:107-126 | pre-image, finalizer, attempt and deferred patch on every exit, as the machine runs them |
| Reconciler.BootstrapReconciler.CheckPhase | internal/controller/bootstrap_controller.go:128-142 | HasUpdate under interference by others, and recording the attempt, end where the machine's check step does |
| Reconciler.BootstrapReconciler.FetchPhase | internal/controller/bootstrap_controller.go:144-158 | temporary directory and FetchCRD under interference by others end where the machine's fetch step does; a panic sets no condition |
| Reconciler.BootstrapReconciler.Load | internal/controller/bootstrap_controller.go:167-192 | resource manager, reading, labelling and counting; the counters alias the object's own map exactly when that is non-nil |
| Reconciler.BootstrapReconciler.Label | internal/controller/bootstrap_controller.go:186-192 | every object gets the owner label and no other, and the shared map counts every object |
| Reconciler.BootstrapReconciler.JudgePhase | internal/controller/bootstrap_controller.go:194-222 | both checks and both gates, in order, end where the machine's judge step does, with the detected list stored at every outcome |
| Reconciler.BootstrapReconciler.ApplyPhase | internal/controller/bootstrap_controller.go:224-241 | the writes up to the one that fails, the wait, and recording success only after both |
| Reconciler.BootstrapReconciler.PatchObject | internal/controller/bootstrap_controller.go:122-125 | a patch that lands stores the merged object, one that does not changes nothing |
| Reconciler.BootstrapReconciler.ListOwned | internal/controller/bootstrap_controller.go:261-268 | the listing has each local CRD with this owner label exactly once |
| Reconciler.BootstrapReconciler.DeleteItems | internal/controller/bootstrap_controller.go:272-278 | the loop deletes the listed CRDs in order and stops at the first failure |
| Reconciler.BootstrapReconciler.ReconcileDelete | internal/controller/bootstrap_controller.go:248-283 | pruning only when asked for, the finalizer only after every listed CRD is deleted, and at once without prune, as the machine's deletion does |
| VersionSafety.VersionsNeverShrink | internal/controller/bootstrap_controller.go:194-229 | over every run of any number of Bootstraps, with applies that stop half-way, an installed local CRD that is not pruned keeps every schema-bearing version name while no reconcile that ignores breaking changes writes locally |
| VersionSafety.MirroredVersionsNeverShrink | internal/controller/bootstrap_controller.go:194-229 | over every run an installed CRD of any cluster that is not pruned keeps every schema-bearing version name, while breaking changes are enforced for its cluster and the local CRD of its name has all its versions whenever a batch for its cluster is judged |
| VersionSafety.GateProtectsExactly | internal/controller/bootstrap_controller.go:342-361 | every batch found clean carries the versions of an installed CRD, if and only if that has none or the local CRD of its name has all of them |
| VersionSafety.InstantSafetyExactly | internal/controller/bootstrap_controller.go:224-229 | a batch that covers the cluster can be written in any order and stopped anywhere without losing a version for an instant, if and only if its objects of one name agree on their versions |
| VersionSafety.EnforcedBatchCovers | internal/controller/bootstrap_controller.go:203-208 | a batch that enforcement lets through to the local cluster covers what it overwrites |
| VersionSafety.RemoteClusterIsNotJudged | internal/controller/bootstrap_controller.go:342-342 | what the gates decide is the same whatever any remote cluster holds |
| Ownership.StepKeepsStamped | internal/controller/bootstrap_controller.go:186-189 | every CRD the controller wrote carries the name of the Bootstrap whose apply last reached it, after partial applies as well |
| Ownership.DeletionIsExact | internal/controller/bootstrap_controller.go:258-282 | wherever a pruning deletion stops, only owned CRDs are gone, the finalizer is stored while one is left, and when it is gone exactly the owned ones are |
| Ownership.PruneIsExact | internal/controller/bootstrap_controller.go:263-278 | after a completed pruning deletion, a CRD the controller had written is gone if and only if it is local and its last writer has the same name, in whatever namespace |
| Ownership.EachDeleteLowersOwned | internal/controller/bootstrap_controller.go:275-277 | each successful delete takes exactly one CRD from the owned set |
| Ownership.DeletionCompletes | internal/controller/bootstrap_controller.go:272-282 | an attempt in which no call fails takes one delete for each owned CRD and drops the finalizer |
| Ownership.LettingGoCompletes | internal/controller/bootstrap_controller.go:251-256 | a deletion with prune unset is one reconcile: no CRD is touched, and once the patch lands the finalizer is gone, and the Bootstrap unless others hold it; a lost patch changes nothing |
| Ownership.OwnedOnlyShrinks | internal/controller/bootstrap_controller.go:92-103 | over all attempts and everything between them the owned set of a Bootstrap being deleted never grows, while no other stored Bootstrap has its name |
| Ownership.FinalizerPersists | internal/controller/bootstrap_controller.go:107-126 | a stored finalizer goes only by the last patch of a deletion, with prune only after every owned CRD |
| Ownership.NoOrphans | internal/controller/bootstrap_controller.go:252-282 | over every run each local CRD written has its last writer stored with the finalizer, but for CRDs left behind with prune unset and not written since, and for writers not yet patched since they wrote without a stored finalizer |
| Ownership.EarlyDeletionOrphans | internal/controller/bootstrap_controller.go:109-126 | a deletion requested between the first write and the first patch leaves a labelled CRD without its owner once the finalizers of others are gone, whatever the prune setting |
| Ownership.OrphanedExactly | internal/controller/bootstrap_controller.go:92-126 | a local CRD can be orphaned by what follows a delete request of its last writer, if and only if the finalizer was not stored at the request |
| RollForward.AppliedStaysBelowAttempted | internal/controller/bootstrap_controller.go:142-142 | over every run the stored applied revision of a Bootstrap with versioned sources is never above its attempted one, whatever sources others have |
| RollForward.AppliedChangesForward | internal/controller/bootstrap_controller.go:238-239 | the applied revision changes only by the patch of a done reconcile, to a revision strictly above that satisfied the constraint in force when HasUpdate ran |
| RollForward.OnlyRollsForward | pkg/source/gitlab/gitlab.go:84-103 | at any later time of any run the applied revision of a Bootstrap with versioned sources is the same or strictly above in precedence, through edits of constraint and source, and whatever others do |
| RollForward.RulingIsReasonedExactly | internal/controller/bootstrap_controller.go:201-222 | a blocked reconcile leaves a founded reason except exactly when validation panics after an empty report while BreakingChangeDetected is left over |
| RollForward.ReasonsStayFounded | internal/controller/bootstrap_controller.go:201-208 | over every run a Bootstrap's stored BreakingChangeDetected goes with a non-empty list and an attempted revision strictly above the applied one, unless a reconcile of its own panicked in validation after an empty report with that reason left over |
| Quiescence.SuccessSettlesExactly | internal/controller/bootstrap_controller.go:238-239 | recording a success takes exactly that Bootstrap off the due ones, unless its digest is pinned, when it takes none |
| Quiescence.SuccessesUsePending | internal/controller/bootstrap_controller.go:128-138 | with specs and sources fixed and nothing pinned, recorded successes and due Bootstraps always add up to those due at the start, a reconcile in flight included if what it read is still so |
| Quiescence.SuccessesAreBounded | internal/controller/bootstrap_controller.go:128-138 | from any coherent state, in the middle of an outdated reconcile too, the quiet that follows records at most two successes more than there are due Bootstraps |
| Quiescence.FailuresAreRetried | internal/controller/bootstrap_controller.go:128-229 | quiet runs without a recorded success, whatever fails in them, leave exactly the same Bootstraps due |
| Quiescence.QuietKeepsApplied | internal/controller/bootstrap_controller.go:238-239 | quiet runs without a recorded success leave every applied revision, every spec and all sources as they are |
| Quiescence.SameOfferAgain | internal/controller/bootstrap_controller.go:128-142 | a check after such a run is offered the revision that the check before it was offered, or one of equal precedence |
| Quiescence.NothingPendingIsRest | internal/controller/bootstrap_controller.go:133-138 | once nothing is due, nothing is being deleted and no reconcile is past its check, every further one leaves all clusters and applied revisions alone |
| Counters.CountersAreTallies | internal/controller/bootstrap_controller.go:181-192 | over every run the stored counters are the tally of the reconciles that labelled: those whose patch landed, the failed ones that incremented the aliased map included |
| Counters.CounterExactly | api/v1alpha1/bootstrap_types.go:208-210 | a counter is at least, or equals, the number of successful applies if and only if the lost successes are at most, or equal, the counted failures; with none lost it is exact if and only if no failure of that CRD followed a stored success |
| Counters.CounterBalance | internal/controller/bootstrap_controller.go:181-238 | a counter and the successes whose patch was lost add up to all successes and the failures that incremented the stored map |
| Counters.TallyEmptyExactly | internal/controller/bootstrap_controller.go:181-184 | the map is still nil exactly when no stored success had any CRD |
| Counters.StoredCountersNeverDecrease | internal/controller/bootstrap_controller.go:238-238 | over every run no counter of a stored Bootstrap decreases |
| Delivery.ApplyIsReachedExactly | internal/controller/bootstrap_controller.go:194-222 | with lookups succeeding, apply is reached if and only if every comparison works, every object is clean or changes are ignored, and every version is accepted or the failure is an error that is ignored |
| Delivery.ChangesComeFromManifest | internal/controller/bootstrap_controller.go:224-229 | a cluster entry changes only by writing a CRD-kind object of the fetched manifest to the Bootstrap's target, or by pruning an owned CRD |
| Delivery.FailingEarlyChangesNothing | internal/controller/bootstrap_controller.go:128-222 | stretches of any run in which no reconcile applies or prunes leave all clusters and applied revisions unchanged |
| Delivery.CarriedWasFetched | internal/controller/bootstrap_controller.go:153-158 | the content a reconcile works on was fetched, for the revision it attempts, by a step of that very reconcile |
| Delivery.RevisionMatchesContent | pkg/source/configmap/source.go:58-70 | for every source, whatever is published between HasUpdate and FetchCRD: a done reconcile applied what its source had under the recorded revision at one step of that reconcile, and the cluster holds one of its CRDs under each of their names |
| Digests.AimedWasOffered | internal/controller/bootstrap_controller.go:128-142 | the revision a reconcile works on was offered by its source to a check of that very reconcile |
| Digests.DigestMatchesExactly | pkg/source/url/url.go:86-100 | the recorded digest is that of what the URL held at the check, the content what it held at a later fetch; so the applied content matches the required digest if and only if these two have the same digest |
| Conditions.ReadyTellsOutcome | internal/controller/bootstrap_controller.go:113-241 | from the start of a reconcile to the patch that lands: the stored Ready is true exactly when the source said there is nothing to do or everything was written and seen ready, and then the cluster holds the batch; else it is false with the one reason whose cause ended the reconcile; it is what it was before only if HasUpdate failed or something panicked |
| Conditions.CauseIsUnique | internal/controller/bootstrap_controller.go:144-236 | no step is a cause for two reasons, or for a reason and for success |
| Conditions.DetectedIsListed | internal/controller/bootstrap_controller.go:194-211 | after detection, at every outcome of the gates and at the apply too, the status lists exactly what is to be reported of the installed CRDs |
| Conditions.StatusSurfaces | internal/controller/bootstrap_controller.go:142-201 | over a whole reconcile whose patch lands, the stored list is what its detection found, ignored or not, and the stored attempt the revision it was offered, applied or not; each is as before if there was none |
| Progress.DueCompletes | internal/controller/bootstrap_controller.go:128-241 | for a due Bootstrap whose content can be fetched and read, the reconcile in which no call fails ends with the offered revision attempted and the changes found listed; if the gates are open, with that revision applied, Ready true, every CRD held and the Bootstrap no longer due unless pinned; else no cluster has changed and the same Bootstraps are due |
| Progress.SurfacedExactly | internal/controller/bootstrap_controller.go:201-211 | the list so stored has exactly what is to be reported of the installed CRDs, also when breaking changes are ignored and the batch is applied |
| Progress.FailedValidationIsRetried | internal/controller/bootstrap_controller.go:213-222 | after a reconcile of a Bootstrap that validation ended, with nobody else acting, that Bootstrap is due and so are all that were, whether the patch lands or is lost |
| Conditions.BreakingChangesBlockExactly | internal/controller/bootstrap_controller.go:201-208 | with lookups succeeding, a reconcile ends blaming breaking changes, with a list, if and only if every comparison works, some object is not clean, and changes are not ignored, or they are and validation panics with that reason left over |
| Reachable.ReachableStatesAreGood | internal/controller/bootstrap_controller.go:63-67 | every state of every run from a fresh start satisfies the invariants on the run in flight, labels, orphans, counters and arrival |
| Reachable.ReachableStatusesAreSound | internal/controller/bootstrap_controller.go:128-241 | in every state of every run from a fresh start the status invariants hold of each Bootstrap with versioned sources |
| Reachable.Serve | internal/controller/bootstrap_controller.go:63-67 | a queue of reconciles served one after the other by the imperative code is a run of the machine and keeps the invariants |
| Scenarios.CounterFallsShort | internal/controller/bootstrap_controller.go:119-125 | a run from a fresh start: one success, its patch lost, the CRD installed and its counter zero |
| Scenarios.CounterExceeds | internal/controller/bootstrap_controller.go:181-192 | a run from a fresh start: one success and one failure, and the counter says two |
| Scenarios.ReasonGoesStale | internal/controller/bootstrap_controller.go:201-222 | a run from a fresh start that stores BreakingChangeDetected beside an empty list |
| Scenarios.FirstWriteIsOrphaned | internal/controller/bootstrap_controller.go:109-126 | a run from a fresh start that leaves a labelled CRD and no Bootstrap |
| Scenarios.TwinsLoseVersion | internal/controller/bootstrap_controller.go:224-229 | a run from a fresh start in which an enforced batch with one CRD twice takes away a version it had just installed |
| Scenarios.NamesakePrunes | internal/controller/bootstrap_controller.go:263-278 | a run from a fresh start in which a Bootstrap that wrote nothing prunes the CRD of its stored namesake |
| Scenarios.RemoteIsNotPruned | internal/controller/bootstrap_controller.go:263-278 | a run from a fresh start in which a pruning deletion completes and the remote CRD of the Bootstrap stays |
| Scenarios.RemoteLosesVersion | internal/controller/bootstrap_controller.go:342-342 | a run from a fresh start in which an enforced batch takes a version away from a remote CRD |
| Scenarios.ValidationIsRetried | internal/controller/bootstrap_controller.go:213-219 | a run from a fresh start in which validation fails, the failure is stored, and the next reconcile reaches the gates again with nobody acting |
| Scenarios.ReadyStaysTrue | pkg/source/gitlab/gitlab.go:183-193 | a run from a fresh start in which a release that is not found leaves Ready true, with the attempted revision above the applied one |
| Scenarios.OtherDigestIsApplied | pkg/source/url/url.go:86-94 | a run from a fresh start in which a URL changes between HasUpdate and FetchCRD, and content of another digest is applied and recorded under the required one |

## Left out

- Sources.CheckForUpdate: the four other handlers are called as functions of what they read; URL building, HTTP status handling, credentials, the client timeout and temporary files appear only as an answer, a refused request or another failure.
- HelmBundle.AppendFilesToCrds: errors of the two writes are ignored by the source and do not occur in the model; symbolic links and unreadable files are not modelled, and neither is how a chart is downloaded and unpacked.
- Manifest.RoundTripExactly: documents are split at the two marker lines of section 9.1.2 of YAML 1.2.2; comments and directives between documents, and what the YAML library does otherwise, are not modelled.
- Objects.BootstrapObject.DeepCopyInto: spec, conditions and the list of breaking changes are values, so only the counter map can be shared; that the copy has slices of its own for conditions and breaking changes, and the pointers of the spec, are not modelled.
- Reconciler.BootstrapReconciler.Reconcile: the returned error and requeue interval, ObservedGeneration, condition messages and logging are not modelled; a missing `spec.source` is not modelled.
- Reconciler.BootstrapReconciler.ApplyPhase: staging and field ownership of server-side apply are not modelled; objects are written one by one in list order, and the machine allows any order.
- Semver.PrecedenceIsTotalPreorder: numeric pre-release identifiers are unbounded, while the library reads them as 64-bit numbers; lenient parsing of versions and the constraint grammar are abstract.
- Helm's version listing (OCI tags, index file), its credentials and the caches of the registry client are not modelled.
- NewResourceManager and impersonation are one call that succeeds or fails.
- Stale caches, asynchronous CRD termination and a second active controller instance are excluded by assumption.
- That an update without breaking entries keeps existing objects valid is not claimed: the schema diff is a library function.
- Start-up flags, Helm chart templates, RBAC manifests, getters and the end-to-end harness would only add easy members.
