# PackageManifest reconciler and finalizer helpers, in Dafny

This project models the package-manifest reconcile pass of the package
operator and the finalizer helpers it uses. One pass does the following:

- It fetches the PackageManifest. A manifest that is not there ends the pass
  with nil.
- It makes sure the manifest carries the dynamic-cache label.
- If deletion was requested, it runs each registered finalizer's cleaner and
  removes that finalizer, one merge patch per entry whose finalizer is
  present.
- Otherwise it ensures the registered finalizers and the cache finalizer, and
  derives the package-loader job's name from the digest of the package image.
- It gets that job, creates it if it is missing, and scans its conditions.

The model is split into these modules:

- `Kube` is the API server as the reconciler sees it. A `Cluster` value holds
  the stored manifests and jobs, the log of every client call, and the
  indices of the calls that fail. `Client` is a class over a `Cluster`. Each
  of its methods (Get, merge Patch, Update, Get and Create of a job) is
  proved equal to a reply function on `Cluster`. `ManifestObject` is the
  in-memory manifest that Get fills and Patch or Update overwrite.
- `FinalizerLists` holds the `controllerutil` finalizer list operations as
  sequence functions, with their membership, duplicate-freedom and
  idempotence lemmas.
- `Controllers` holds `EnsureFinalizers`, `RemoveFinalizers`,
  `EnsureCachedFinalizer` and `FreeCacheAndRemoveFinalizer` as methods with
  the source's loops. Each is proved equal to a step function, and the
  lemmas state what the helpers promise.
- `PackageManifestTypes` holds the finalizer-to-cleaner registry and
  `packageManifestFinalizers`.
- `JobNames` holds `jobNameFromPackageBundleImage`, with `strings.Split` and
  its round trip.
- `PackageManifestReconciler` holds `ReconcileSpec` (what a pass does) and
  `PackageManifestController.Reconcile`, which mirrors the Go code statement
  by statement and is proved to do exactly what `ReconcileSpec` says. The
  lemmas state what a pass promises:
  - nothing but finalizers, labels and jobs is written;
  - a deleting manifest loses a registered finalizer only after its cleaner
    and every earlier one succeeded;
  - a live manifest's finalizers only grow;
  - an image without a digest is refused before any job call;
  - a job is created only after a NotFound, and only the desired job;
  - a second pass does not create it again.

How a Go map is visited is modelled as a sequence of registry entries with
distinct names, in the order one range statement visits them. Every
property is stated for every such sequence, so it holds whatever order the
runtime picks. A pass ranges over the map once, so one sequence per pass is
exact.

These are facts of the code that the model follows:

- On deletion, the finalizers are removed with one `RemoveFinalizers` call,
  and so one patch, per registry entry that is present
  (`ReconcileDeletingDrains`). They are not removed in a single batch.
- The cache finalizer `package-operator.run/cached` is added on the live
  path but never removed on the deletion path
  (`ReconcileDeletingWithProgramRegistry`).
- After a successful Create, the pass still returns the Get's NotFound error
  (`ReconcileCreatesMissingJob`).
- The job is placed in the manifest's own namespace, and `--namespace` is
  passed that namespace. The manifest's target namespace is not used.
- The pass writes no status. The condition scan's outcome is computed and
  then discarded.

## Model

| member | source | states |
|---|---|---|
| Kube.Client.Get | internal/controllers/packagemanifest/packagemanifest_controller.go:65-69 | Get appends a call to the log. It fails with the scheduled error, with NotFound for a missing key, and otherwise copies the stored manifest into the object. |
| Kube.Client.Patch | internal/controllers/controllers.go:37-51 | A merge patch replaces only the stored finalizers, bumps the resource version and copies the stored object back. On failure it leaves the store and the object as they were. |
| Kube.Client.Update | internal/controllers/packagemanifest/packagemanifest_controller.go:55 | Update writes labels and finalizers but keeps the stored status and deletion mark. On success the object is refreshed from the store. |
| Kube.Client.CreateJob | internal/controllers/packagemanifest/packagemanifest_controller.go:125-128 | Create stores the job under its key unless one is there (AlreadyExists) or the call fails. |
| Kube.Client.GetJob | internal/controllers/packagemanifest/packagemanifest_controller.go:123 | A job Get appends a call to the log and returns the scheduled failure, NotFound for a missing key, or otherwise the stored job, exactly as `GetJobReply` says. |
| Kube.GetManifestReply | internal/controllers/packagemanifest/packagemanifest_controller.go:66-67 | A Get succeeds iff the call does not fail and the key is stored, and then returns the stored manifest. It returns NotFound iff the call does not fail and the key is missing. |
| Kube.PatchReply | internal/controllers/controllers.go:48 | A patch succeeds iff the call does not fail and the manifest is stored. It never touches jobs, and a failed patch leaves the store as it was. |
| Kube.UpdateReply | internal/controllers/packagemanifest/packagemanifest_controller.go:55 | An update succeeds iff the call does not fail and the manifest is stored. A failed update leaves the store as it was. |
| Kube.GetJobReply | internal/controllers/packagemanifest/packagemanifest_controller.go:123 | A job Get returns the stored job iff the call does not fail and the job exists. It returns NotFound iff the call does not fail and the job is missing. |
| Kube.CreateJobReply | internal/controllers/packagemanifest/packagemanifest_controller.go:125 | A Create succeeds iff the call does not fail and no job has that key. It then stores exactly that job, and otherwise changes no job. |
| FinalizerLists.AddAllMembership | internal/controllers/controllers.go:26-32 | After adding names, the list holds exactly the old entries and the names. |
| FinalizerLists.AddAllExtends | internal/controllers/controllers.go:26-32 | Adding finalizers keeps the old list as a prefix. |
| FinalizerLists.AddAllNoDuplicates | internal/controllers/controllers.go:27-31 | Adding only absent names keeps a duplicate-free list duplicate-free. |
| FinalizerLists.AddAllUnchangedIff | internal/controllers/controllers.go:25-35 | The list is unchanged iff every name was already present. This is the `noFinalizersToPatch` test, in both directions. |
| FinalizerLists.AddAllIdempotent | internal/controllers/controllers.go:26-32 | Adding the same names twice equals adding them once. |
| FinalizerLists.WithoutMembership | internal/controllers/controllers.go:60-66 | After removal, the list holds exactly the old entries that are not among the names. |
| FinalizerLists.WithoutUnchangedIff | internal/controllers/controllers.go:59-69 | Removal leaves the list unchanged iff no name was present, and otherwise shortens it. |
| FinalizerLists.RemoveFinalizerEffect | internal/controllers/controllers.go:65 | Removing a present finalizer shortens the list. Removing an absent one changes nothing. |
| FinalizerLists.WithoutNoDuplicates | internal/controllers/controllers.go:60-66 | Removal keeps a duplicate-free list duplicate-free. |
| FinalizerLists.RemoveAllIsWithout | internal/controllers/controllers.go:60-66 | Removing names one at a time equals filtering them out in one go. |
| FinalizerLists.RemoveAllAppend | internal/controllers/controllers.go:60-66 | Removing x and then y equals removing x followed by y. |
| FinalizerLists.WithoutWithout | internal/controllers/packagemanifest/packagemanifest_controller.go:76-83 | Successive removals compose. This is what makes one removal per registry entry equal to removing all the names. |
| Controllers.EnsureFinalizers | internal/controllers/controllers.go:21-52 | The loop and the patch do exactly what `EnsureFinalizersStep` says, to both the cluster and the object. |
| Controllers.RemoveFinalizers | internal/controllers/controllers.go:55-85 | The loop and the patch do exactly what `RemoveFinalizersStep` says. |
| Controllers.EnsureCachedFinalizer | internal/controllers/controllers.go:87-91 | Equals ensuring the single cache finalizer. |
| Controllers.CacheFreer.Free | internal/controllers/controllers.go:93-95 | Free returns the cache's scheduled failure. On success it records the object's key as freed, and on failure it records nothing. |
| Controllers.FreeCacheAndRemoveFinalizer | internal/controllers/controllers.go:98-107 | A failing Free returns "free cache" and touches neither the cluster nor the object. A successful Free records the object as freed, and then the call equals removing the cache finalizer. |
| Controllers.EnsureFinalizersCalls | internal/controllers/controllers.go:25-51 | If every name is present, no call is made and nothing changes. Otherwise exactly one merge patch is issued, carrying the resource version and the new list. |
| Controllers.EnsureFinalizersResult | internal/controllers/controllers.go:21-52 | The object's finalizers are the old ones plus the names, and stay duplicate-free. An error comes back iff the list changed and its patch failed, and it is "adding finalizer" wrapping that patch's error. A failed patch leaves the store alone. A successful one stores the new list and nothing else. |
| Controllers.EnsureFinalizersTwice | internal/controllers/controllers.go:25-35 | After a successful ensure, ensuring the same names again makes no call. |
| Controllers.RemoveFinalizersCalls | internal/controllers/controllers.go:59-84 | If no name is present, no call is made. Otherwise exactly one merge patch is issued with the filtered list. |
| Controllers.RemoveFinalizersResult | internal/controllers/controllers.go:55-85 | The object's finalizers are the old ones minus the names. An error comes back iff the list changed and its patch failed, and it is "removing finalizer" wrapping that patch's error. A failed patch leaves the store alone. A successful one stores the filtered list. |
| Controllers.EnsureFinalizersFrame | internal/controllers/controllers.go:37-51 | Ensuring issues at most one call: a patch of this manifest that keeps its identity, spec, status and deletion mark. |
| Controllers.RemoveFinalizersFrame | internal/controllers/controllers.go:71-84 | Removing issues at most one call: a patch of this manifest, with the same frame. |
| PackageManifestTypes.RunCleaner | internal/controllers/packagemanifest/types.go:14-19 | A cleaner returns nil iff it is the registered object-deployment cleaner. |
| PackageManifestTypes.PackageManifestFinalizers | internal/controllers/packagemanifest/types.go:21-27 | The result lists every registry key once, in iteration order, and nothing else. |
| PackageManifestTypes.NamesDistinct | internal/controllers/packagemanifest/types.go:21-27 | The names of a registry, which are map keys, hold no duplicates. |
| PackageManifestTypes.FinalizersToCleanersContents | internal/controllers/packagemanifest/types.go:11-19 | The registry has the single key `package-operator.run/package-manifest/object-deployment`, and its cleaner returns nil. |
| JobNames.SplitJoin | internal/controllers/packagemanifest/packagemanifest_controller.go:151 | Joining the tokens of a split with the separator gives back the input, and no token holds the separator. |
| JobNames.SplitSingleIff | internal/controllers/packagemanifest/packagemanifest_controller.go:151-152 | A split yields one token iff the separator does not occur. |
| JobNames.JobNameSpec | internal/controllers/packagemanifest/packagemanifest_controller.go:150-157 | The name is refused iff the image holds no ':'. Otherwise the image is a prefix, ':' and a colon-free digest, and the name is "job-" + name + "-" + digest. |
| JobNames.DigestIsAfterLastColon | internal/controllers/packagemanifest/packagemanifest_controller.go:155-156 | For every prefix and colon-free digest, the name is built from exactly that digest. |
| JobNames.JobNameExampleDigest | internal/controllers/packagemanifest/packagemanifest_controller.go:150-157 | "registry/img@sha256:abc123" for "foo" gives "job-foo-abc123". |
| JobNames.JobNameExampleNoDigest | internal/controllers/packagemanifest/packagemanifest_controller.go:152-154 | "registry/img" is refused. |
| PackageManifestReconciler.InspectJobConditions | internal/controllers/packagemanifest/packagemanifest_controller.go:135-145 | The scan stops at the first Complete=True or Failed=True condition. No condition before the stop is terminal. |
| PackageManifestReconciler.FirstTerminalSpec | internal/controllers/packagemanifest/packagemanifest_controller.go:135-145 | The scan ends Succeeded, Failed or Pending iff the first terminal condition is Complete, is Failed, or does not exist. |
| PackageManifestReconciler.PackageManifestController.EnsureDynamicCacheLabel | internal/controllers/packagemanifest/packagemanifest_controller.go:45-56 | The method equals `EnsureDynamicCacheLabelStep`. |
| PackageManifestReconciler.EnsureDynamicCacheLabelSpec | internal/controllers/packagemanifest/packagemanifest_controller.go:45-56 | A manifest already labelled "True" gets no call. Otherwise one Update sets the label to "True" and keeps every other label and the finalizers. |
| PackageManifestReconciler.PackageManifestController.Reconcile | internal/controllers/packagemanifest/packagemanifest_controller.go:58-148 | The method's effect on the cluster, and the error it returns, equal `ReconcileSpec`, whichever order the registry is visited in. |
| PackageManifestReconciler.ReconcileManifestMissing | internal/controllers/packagemanifest/packagemanifest_controller.go:65-69 | A missing manifest ends the pass with nil after one Get. Any other Get error is returned. |
| PackageManifestReconciler.ReconcileFrame | internal/controllers/packagemanifest/packagemanifest_controller.go:58-148 | A pass never adds or deletes a manifest, never rewrites its spec, status or deletion mark, and never changes an existing job. |
| PackageManifestReconciler.DrainFrame | internal/controllers/packagemanifest/packagemanifest_controller.go:76-83 | The deletion loop only patches this manifest, at most once per entry. It fails only with a cleaning or a removing error. |
| PackageManifestReconciler.DrainFinalizers | internal/controllers/packagemanifest/packagemanifest_controller.go:76-84 | The loop only removes finalizers, and only registered ones. A finalizer is removed only after its own cleaner and every earlier one succeeded. Completion removes exactly the registered names. |
| PackageManifestReconciler.DrainErrors | internal/controllers/packagemanifest/packagemanifest_controller.go:76-84 | A failing cleaner makes the loop fail. With succeeding cleaners and no failing call, the loop returns nil. |
| PackageManifestReconciler.DrainPatches | internal/controllers/packagemanifest/packagemanifest_controller.go:76-83 | A completed loop issues one patch per registered name the manifest carries. |
| PackageManifestReconciler.ReconcileDeleting | internal/controllers/packagemanifest/packagemanifest_controller.go:75-85 | On a deleting manifest, the pass makes no job call, keeps every unregistered finalizer, including the cache finalizer, and removes a registered one only after its cleaner and every earlier one succeeded. It fails if any cleaner fails. |
| PackageManifestReconciler.ReconcileDeletingDrains | internal/controllers/packagemanifest/packagemanifest_controller.go:75-85 | With succeeding cleaners and no failing call, the pass returns nil with exactly the registered names removed, using one patch per present name. |
| PackageManifestReconciler.ReconcileDeletingWithProgramRegistry | internal/controllers/packagemanifest/packagemanifest_controller.go:75-85 | With the program's registry, deletion removes only the object-deployment finalizer and leaves the cache finalizer in place. |
| PackageManifestReconciler.EnsureRegisteredFinalizersFrame | internal/controllers/packagemanifest/packagemanifest_controller.go:87-93 | The two ensure calls only patch this manifest, at most twice, and cannot fail when no call fails. |
| PackageManifestReconciler.EnsureRegisteredFinalizersResult | internal/controllers/packagemanifest/packagemanifest_controller.go:87-93 | The finalizers only grow, and only by registered names and the cache finalizer. After success, all of those are present. |
| PackageManifestReconciler.ReconcileLiveFinalizers | internal/controllers/packagemanifest/packagemanifest_controller.go:87-93 | On a live manifest, the pass only adds finalizers, only registered ones and the cache finalizer, keeps the list duplicate-free, and has added them all by the time it reaches the job name. |
| PackageManifestReconciler.JobStepSpec | internal/controllers/packagemanifest/packagemanifest_controller.go:122-133 | The job step returns nil iff the Get finds the job. A missing job is created, and the pass then returns the Get's NotFound iff the Create stored the job. Any other outcome is a Get or a Create error. |
| PackageManifestReconciler.ReconcileInvalidImage | internal/controllers/packagemanifest/packagemanifest_controller.go:95-100 | An image without ':' leads to no job call. On a live manifest with no failing call, it is reported as the missing-digest error, and that error arises only then. |
| PackageManifestReconciler.ReconcileCreatesOnlyAfterNotFound | internal/controllers/packagemanifest/packagemanifest_controller.go:102-133 | A Create happens only on a live manifest with a valid image and a missing job. It comes right after its NotFound Get and creates the desired job: the job name in the manifest's namespace, with `--namespace` and `--package-name`. |
| PackageManifestReconciler.ReconcileExistingJob | internal/controllers/packagemanifest/packagemanifest_controller.go:122-147 | An existing job is never recreated. With no failing call, the pass ends with its Get and returns nil. |
| PackageManifestReconciler.ReconcileCreatesMissingJob | internal/controllers/packagemanifest/packagemanifest_controller.go:122-132 | A missing job is created as desired, and the pass still returns NotFound. |
| PackageManifestReconciler.ReconcileTwiceCreatesOnce | internal/controllers/packagemanifest/packagemanifest_controller.go:122-133 | A pass that created the job is followed by a pass that does not create one, whatever order each pass visits the registry in. |

## Left out

- `SetupWithManager`, the dynamic-cache watch source, the logger and the
  context are not modelled. They configure the manager and do not change
  what one pass does.
- JSON marshalling of the merge patch is not modelled. It cannot fail for a
  map of strings, so its error branch is not modelled either.
- The API server's optimistic-concurrency conflict on `resourceVersion` is
  not modelled as a compare-and-swap. Like timeouts and every other server
  failure, it is one of the scheduled call failures (`ServerError`).
- Object deletion once the finalizer list becomes empty is the API server's
  job, so a manifest never vanishes in the model.
- The registered cleaner is a placeholder that returns nil and issues no
  call, and the model follows it. A failing cleaner is modelled only as the
  error it returns.
- PackageManifestReconciler.PackageManifestController.Reconcile does not
  model concurrent passes. Each pass is a sequence of calls against a
  cluster that only it changes; interleaving with other writers is
  represented only by scheduled call failures.
- The job's pod template is kept to its one container: name, image, command
  and arguments. Job status other than the conditions is not modelled.
- The API types of the PackageManifest resource are not modelled beyond the
  fields the reconciler reads or writes: key, labels, finalizers, resource
  version, deletion mark and package image. The target namespace and the
  status phase are carried along, but the reconciler never reads the one
  nor writes the other.
- Every client read is consistent with the store: a Get answers from the
  store itself, never from a lagging informer cache. A stale NotFound for
  a job that already exists, which a cached client can return, is not
  modelled, so the AlreadyExists outcome of a Create is modelled but no
  pass reaches it.
- PackageManifestReconciler.ReconcileCreatesOnlyAfterNotFound: its
  `job.key !in s.jobs` conclusion holds only under consistent reads; with
  a stale cache a Create may follow a NotFound for a job that exists, and
  then fail with AlreadyExists.
- PackageManifestReconciler.ReconcileTwiceCreatesOnce: holds only under
  consistent reads; with a stale cache a second pass may issue another
  Create call, which then fails with AlreadyExists and stores nothing.
- The `ctrl.Result{}` every return of Reconcile carries is not modelled: it
  is always the zero result, so no return asks for a requeue, and retries
  come only from a returned error.
