/**
 * The PackageManifest reconciler: one pass fetches the manifest, makes sure
 * it carries the cache label, and then either drains the registered
 * finalizers (when deletion was requested) or ensures them, derives the
 * package-loader job's name from the package image and gets or creates
 * that job.
 *
 * `ReconcileSpec` says what a pass does to the cluster and what it returns;
 * `PackageManifestController.Reconcile` is proved to do exactly that, and the
 * lemmas after it state what a pass promises.
 */
module PackageManifestReconciler {
  import opened Wrappers
  import opened Kube
  import opened FinalizerLists
  import opened Controllers
  import opened PackageManifestTypes
  import opened JobNames

  /** What a pass returns instead of nil. */
  datatype ReconcileError =
    | GetManifestFailed(cause: ApiError)                                        // the Get error, NotFound excepted, as is
    | EnsuringCacheLabel(cause: ApiError)                                       // "error occurred while ensuring the dynamic cache label: %w"
    | CleaningUp(finalizer: string, reason: string)                             // "error occurred while cleaning up the '%s' finalizer ...: %w"
    | RemovingRegistryFinalizer(finalizer: string, removal: FinalizerError)     // "error occurred while removing the '%s' finalizer ...: %w"
    | EnsuringFinalizers(ensure: FinalizerError)                                // an EnsureFinalizers error, as is
    | InvalidImage(invalid: JobNameError)                                       // the job-name error, as is
    | JobGetFailed(cause: ApiError)                                             // the job Get error, as is
    | JobCreateFailed(cause: ApiError)                                          // the job Create error, as is

  /** The cluster after a pass, and the error the pass returns. */
  datatype Pass = Pass(cluster: Cluster, err: Option<ReconcileError>)

  /** What the scan of a job's conditions arrives at; nothing reads it. */
  datatype JobOutcome = JobSucceeded | JobFailedTerminally | JobPending

  const PackageLoaderContainerName: string := "package-loader"
  const PackageLoaderImage: string := "quay.io/mt-sre/package-loader"
  const PackageLoaderCommand: seq<string> := ["package-loader"]

  /**
   * The package-loader job for manifest `m`: named `jobName`, in the
   * manifest's own namespace, told that namespace and the manifest's name.
   */
  function DesiredJob(m: Manifest, jobName: string): Job {
    Job(Key(m.key.namespace, jobName),
        Container(PackageLoaderContainerName, PackageLoaderImage, PackageLoaderCommand,
                  ["--namespace", m.key.namespace, "--package-name", m.key.name]),
        [])
  }

  /** Whether `m` carries the cache label with the value "True". */
  predicate HasCacheLabel(m: Manifest) {
    DynamicCacheLabel in m.labels && m.labels[DynamicCacheLabel] == "True"
  }

  /** What ensureDynamicCacheLabel does; a nil label map is the empty map. */
  function EnsureDynamicCacheLabelStep(s: Cluster, m: Manifest): Step<ApiError> {
    if HasCacheLabel(m) then Step(s, m, None)
    else
      var edited := m.(labels := m.labels[DynamicCacheLabel := "True"]);
      var reply := UpdateReply(s, edited);
      match reply.result
      case Err(e) => Step(reply.cluster, edited, Some(e))
      case Ok(stored) => Step(reply.cluster, stored, None)
  }

  /**
   * What the deletion branch does with the registry entries still to visit:
   * run the entry's cleaner, then remove its finalizer with one
   * RemoveFinalizers call; stop at the first error.
   */
  function DrainSpec(s: Cluster, m: Manifest, entries: seq<RegistryEntry>): Step<ReconcileError>
    decreases |entries|
  {
    if entries == [] then Step(s, m, None)
    else
      var entry := entries[0];
      match RunCleaner(entry.cleaner)
      case Some(reason) => Step(s, m, Some(CleaningUp(entry.finalizer, reason)))
      case None =>
        var removed := RemoveFinalizersStep(s, m, [entry.finalizer]);
        if removed.err.Some? then
          Step(removed.cluster, removed.obj, Some(RemovingRegistryFinalizer(entry.finalizer, removed.err.value)))
        else DrainSpec(removed.cluster, removed.obj, entries[1..])
  }

  /** Whether a condition is `type=True`. */
  predicate IsTrue(c: JobCondition, t: JobConditionType) {
    c.conditionType == t && c.status == ConditionTrue
  }

  predicate IsTerminal(c: JobCondition) {
    IsTrue(c, JobComplete) || IsTrue(c, JobFailed)
  }

  /** The outcome the first terminal condition stands for; pending when there is none. */
  function FirstTerminal(conditions: seq<JobCondition>): JobOutcome {
    if conditions == [] then JobPending
    else if IsTrue(conditions[0], JobComplete) then JobSucceeded
    else if IsTrue(conditions[0], JobFailed) then JobFailedTerminally
    else FirstTerminal(conditions[1..])
  }

  /**
   * The job step: Get the job; when it is found, scan its conditions and
   * return nil; when it is not found, Create it, and return the Create's
   * error or else the Get's NotFound; any other Get error is returned.
   */
  function JobStep(s: Cluster, job: Job): Pass {
    var got := GetJobReply(s, job.key);
    match got.result
    case Ok(_) => Pass(got.cluster, None)
    case Err(e) =>
      if e == NotFound then
        var created := CreateJobReply(got.cluster, job);
        if created.result.Err? then Pass(created.cluster, Some(JobCreateFailed(created.result.error)))
        else Pass(created.cluster, Some(JobGetFailed(NotFound)))
      else Pass(got.cluster, Some(JobGetFailed(e)))
  }

  /**
   * The two EnsureFinalizers calls of the live path: the registry's names,
   * then the cached finalizer; the second runs only if the first succeeded.
   */
  function EnsureRegisteredFinalizersStep(s: Cluster, m: Manifest, registry: seq<RegistryEntry>): Step<FinalizerError> {
    var ensured := EnsureFinalizersStep(s, m, Names(registry));
    if ensured.err.Some? then ensured
    else EnsureFinalizersStep(ensured.cluster, ensured.obj, [CachedFinalizer])
  }

  /**
   * The path of a manifest that is not being deleted: ensure the
   * finalizers, then derive the job's name and run the job step.
   */
  function LiveSpec(s: Cluster, m: Manifest, registry: seq<RegistryEntry>): Pass {
    var ensured := EnsureRegisteredFinalizersStep(s, m, registry);
    if ensured.err.Some? then Pass(ensured.cluster, Some(EnsuringFinalizers(ensured.err.value)))
    else
      match JobNameFromPackageBundleImage(ensured.obj.key.name, ensured.obj.spec.packageImage)
      case Err(e) => Pass(ensured.cluster, Some(InvalidImage(e)))
      case Ok(jobName) => JobStep(ensured.cluster, DesiredJob(ensured.obj, jobName))
  }

  /**
   * One reconcile pass for the manifest under `req`, with the registry
   * visited in the order `registry` lists it.
   */
  function ReconcileSpec(s: Cluster, req: Key, registry: seq<RegistryEntry>): Pass {
    var got := GetManifestReply(s, req);
    match got.result
    case Err(e) => Pass(got.cluster, if e == NotFound then None else Some(GetManifestFailed(e)))
    case Ok(m) =>
      var labelled := EnsureDynamicCacheLabelStep(got.cluster, m);
      if labelled.err.Some? then Pass(labelled.cluster, Some(EnsuringCacheLabel(labelled.err.value)))
      else if labelled.obj.deletionRequested then
        var drained := DrainSpec(labelled.cluster, labelled.obj, registry);
        Pass(drained.cluster, drained.err)
      else LiveSpec(labelled.cluster, labelled.obj, registry)
  }

  /**
   * The condition scan: walk the job's conditions and stop at the first one
   * that is Complete=True or Failed=True. `scanned` is where it stopped.
   */
  method InspectJobConditions(conditions: seq<JobCondition>) returns (outcome: JobOutcome, scanned: nat)
    ensures outcome == FirstTerminal(conditions)
    ensures scanned <= |conditions|
    ensures forall i :: 0 <= i < scanned ==> !IsTerminal(conditions[i])
    ensures scanned < |conditions| <==> outcome != JobPending
    ensures scanned < |conditions| ==> IsTerminal(conditions[scanned])
  {
    outcome := JobPending;
    scanned := 0;
    while scanned < |conditions|
      invariant scanned <= |conditions|
      invariant forall i :: 0 <= i < scanned ==> !IsTerminal(conditions[i])
      invariant FirstTerminal(conditions) == FirstTerminal(conditions[scanned..])
    {
      var condition := conditions[scanned];
      assert conditions[scanned..][1..] == conditions[scanned + 1..];
      if IsTrue(condition, JobComplete) {
        outcome := JobSucceeded;
        break;
      }
      if IsTrue(condition, JobFailed) {
        outcome := JobFailedTerminally;
        break;
      }
      scanned := scanned + 1;
    }
  }

  /**
   * What the scan arrives at: Succeeded iff some condition is Complete=True
   * and none before it is terminal, Failed iff some condition is
   * Failed=True and none before it is terminal, Pending iff no condition is
   * terminal. So whichever terminal condition comes first wins.
   */
  lemma {:induction false} FirstTerminalSpec(conditions: seq<JobCondition>)
    ensures FirstTerminal(conditions) == JobPending <==>
      forall i :: 0 <= i < |conditions| ==> !IsTerminal(conditions[i])
    ensures FirstTerminal(conditions) == JobSucceeded <==>
      exists i :: 0 <= i < |conditions| && IsTrue(conditions[i], JobComplete) &&
        forall j :: 0 <= j < i ==> !IsTerminal(conditions[j])
    ensures FirstTerminal(conditions) == JobFailedTerminally <==>
      exists i :: 0 <= i < |conditions| && IsTrue(conditions[i], JobFailed) &&
        forall j :: 0 <= j < i ==> !IsTerminal(conditions[j])
  {
    if conditions != [] {
      var tail := conditions[1..];
      FirstTerminalSpec(tail);
      assert forall i :: 0 < i < |conditions| ==> conditions[i] == tail[i - 1];
      if !IsTerminal(conditions[0]) {
        if FirstTerminal(conditions) == JobSucceeded {
          var i :| 0 <= i < |tail| && IsTrue(tail[i], JobComplete) && forall j :: 0 <= j < i ==> !IsTerminal(tail[j]);
          assert IsTrue(conditions[i + 1], JobComplete);
          assert forall j :: 0 <= j < i + 1 ==> !IsTerminal(conditions[j]);
        }
        if FirstTerminal(conditions) == JobFailedTerminally {
          var i :| 0 <= i < |tail| && IsTrue(tail[i], JobFailed) && forall j :: 0 <= j < i ==> !IsTerminal(tail[j]);
          assert IsTrue(conditions[i + 1], JobFailed);
          assert forall j :: 0 <= j < i + 1 ==> !IsTerminal(conditions[j]);
        }
        if exists i :: 0 <= i < |conditions| && IsTrue(conditions[i], JobComplete) &&
             forall j :: 0 <= j < i ==> !IsTerminal(conditions[j]) {
          var i :| 0 <= i < |conditions| && IsTrue(conditions[i], JobComplete) &&
            forall j :: 0 <= j < i ==> !IsTerminal(conditions[j]);
          assert i > 0 && IsTrue(tail[i - 1], JobComplete);
          assert forall j :: 0 <= j < i - 1 ==> !IsTerminal(tail[j]);
        }
        if exists i :: 0 <= i < |conditions| && IsTrue(conditions[i], JobFailed) &&
             forall j :: 0 <= j < i ==> !IsTerminal(conditions[j]) {
          var i :| 0 <= i < |conditions| && IsTrue(conditions[i], JobFailed) &&
            forall j :: 0 <= j < i ==> !IsTerminal(conditions[j]);
          assert i > 0 && IsTrue(tail[i - 1], JobFailed);
          assert forall j :: 0 <= j < i - 1 ==> !IsTerminal(tail[j]);
        }
      } else {
        assert IsTerminal(conditions[0]);
      }
    }
  }

  /** The reconciler; its client is the only thing a pass changes. */
  class PackageManifestController {
    const client: Client

    constructor (client: Client)
      ensures this.client == client
    {
      this.client := client;
    }

    /** ensureDynamicCacheLabel. */
    method EnsureDynamicCacheLabel(obj: ManifestObject) returns (err: Option<ApiError>)
      modifies client, obj
      ensures Step(client.State(), obj.Value(), err) == EnsureDynamicCacheLabelStep(old(client.State()), old(obj.Value()))
    {
      if DynamicCacheLabel in obj.labels && obj.labels[DynamicCacheLabel] == "True" {
        return None;
      }
      obj.labels := obj.labels[DynamicCacheLabel := "True"];
      err := client.Update(obj);
    }

    /**
     * Reconcile for the manifest under `req`; `registry` is the order in
     * which this pass's range statement visits FinalizersToCleaners.
     */
    method Reconcile(req: Key, registry: seq<RegistryEntry>) returns (err: Option<ReconcileError>)
      requires DistinctNames(registry)
      modifies client
      ensures Pass(client.State(), err) == ReconcileSpec(old(client.State()), req, registry)
    {
      var packageManifest := new ManifestObject.Empty();
      var getErr := client.Get(req, packageManifest);
      if getErr.Some? {
        return if getErr.value == NotFound then None else Some(GetManifestFailed(getErr.value));
      }

      var labelErr := EnsureDynamicCacheLabel(packageManifest);
      if labelErr.Some? {
        return Some(EnsuringCacheLabel(labelErr.value));
      }

      if packageManifest.deletionRequested {
        ghost var s0, m0 := client.State(), packageManifest.Value();
        for i := 0 to |registry|
          invariant DrainSpec(s0, m0, registry) == DrainSpec(client.State(), packageManifest.Value(), registry[i..])
        {
          var entry := registry[i];
          assert registry[i..][0] == entry && registry[i..][1..] == registry[i + 1..];
          var cleanErr := RunCleaner(entry.cleaner);
          if cleanErr.Some? {
            return Some(CleaningUp(entry.finalizer, cleanErr.value));
          }
          var removeErr := RemoveFinalizers(client, packageManifest, [entry.finalizer]);
          if removeErr.Some? {
            return Some(RemovingRegistryFinalizer(entry.finalizer, removeErr.value));
          }
        }
        assert registry[|registry|..] == [];
        return None;
      }

      var names := PackageManifestFinalizers(registry);
      var ensureErr := EnsureFinalizers(client, packageManifest, names);
      if ensureErr.Some? {
        return Some(EnsuringFinalizers(ensureErr.value));
      }
      ensureErr := EnsureCachedFinalizer(client, packageManifest);
      if ensureErr.Some? {
        return Some(EnsuringFinalizers(ensureErr.value));
      }

      var packageName, packageBundleImage := packageManifest.key.name, packageManifest.spec.packageImage;
      var packageLoaderJob := JobNameFromPackageBundleImage(packageName, packageBundleImage);
      if packageLoaderJob.Err? {
        return Some(InvalidImage(packageLoaderJob.error));
      }

      var desiredJob := DesiredJob(packageManifest.Value(), packageLoaderJob.value);
      var foundJob := client.GetJob(desiredJob.key);
      if foundJob.Err? {
        if foundJob.error == NotFound {
          var createErr := client.CreateJob(desiredJob);
          if createErr.Some? {
            return Some(JobCreateFailed(createErr.value));
          }
        }
        return Some(JobGetFailed(foundJob.error));
      }

      var outcome, _ := InspectJobConditions(foundJob.value.conditions);
      return None;
    }
  }

  // ---------------------------------------------------------------------
  // The deletion branch

  /**
   * Draining writes nothing but the manifest's finalizers: every call it
   * issues is a patch of that manifest, at most one per registry entry,
   * and the only errors it returns are a cleaner's or a removal's.
   */
  lemma {:induction false} DrainFrame(s: Cluster, m: Manifest, entries: seq<RegistryEntry>)
    requires Agrees(s, m)
    ensures var r := DrainSpec(s, m, entries);
      Evolves(s, r.cluster) && Fixed(r.obj) == Fixed(m) && Agrees(r.cluster, r.obj) &&
      |NewCalls(s, r.cluster)| <= |entries| &&
      (forall c :: c in NewCalls(s, r.cluster) ==> c.PatchManifest? && c.key == m.key) &&
      (r.err.Some? ==> r.err.value.CleaningUp? || r.err.value.RemovingRegistryFinalizer?)
    decreases |entries|
  {
    if entries != [] && RunCleaner(entries[0].cleaner).None? {
      var removed := RemoveFinalizersStep(s, m, [entries[0].finalizer]);
      RemoveFinalizersFrame(s, m, [entries[0].finalizer]);
      if removed.err.None? {
        DrainFrame(removed.cluster, removed.obj, entries[1..]);
        EvolvesTransitive(s, removed.cluster, DrainSpec(removed.cluster, removed.obj, entries[1..]).cluster);
      }
    }
  }

  /**
   * What draining does to the stored finalizers: it adds none, it removes
   * none that is not a registry name, and it removes a registry name only
   * after that entry's cleaner, and every cleaner before it, returned nil.
   * When the drain returns nil, exactly the registry names are gone and
   * the rest keep their order.
   */
  lemma {:induction false} DrainFinalizers(s: Cluster, m: Manifest, entries: seq<RegistryEntry>)
    requires Synced(s, m) && DistinctNames(entries)
    ensures var r := DrainSpec(s, m, entries);
      m.key in r.cluster.manifests &&
      var after := r.cluster.manifests[m.key].finalizers;
      (forall x :: x in after ==> x in m.finalizers) &&
      (forall x :: x in m.finalizers && x !in Names(entries) ==> x in after) &&
      (forall i :: 0 <= i < |entries| && entries[i].finalizer in m.finalizers && entries[i].finalizer !in after ==>
         forall j :: 0 <= j <= i ==> RunCleaner(entries[j].cleaner).None?) &&
      (r.err.None? ==> Synced(r.cluster, r.obj) && after == Without(m.finalizers, Names(entries)))
    decreases |entries|
  {
    if entries == [] {
      WithoutUnchangedIff(m.finalizers, []);
    } else if RunCleaner(entries[0].cleaner).None? {
      var f, rest := entries[0].finalizer, entries[1..];
      var removed := RemoveFinalizersStep(s, m, [f]);
      RemoveFinalizersResult(s, m, [f]);
      if removed.err.None? {
        var r := DrainSpec(removed.cluster, removed.obj, rest);
        DrainFinalizers(removed.cluster, removed.obj, rest);
        var after := r.cluster.manifests[m.key].finalizers;
        assert Names(entries) == [f] + Names(rest);
        NamesAt(entries);
        forall i | 0 <= i < |entries| && entries[i].finalizer in m.finalizers && entries[i].finalizer !in after
          ensures forall j :: 0 <= j <= i ==> RunCleaner(entries[j].cleaner).None?
        {
          if i > 0 {
            assert entries[i] == rest[i - 1];
            assert entries[i].finalizer != f;
            forall j | 0 <= j <= i ensures RunCleaner(entries[j].cleaner).None? {
              if j > 0 {
                assert entries[j] == rest[j - 1];
              }
            }
          }
        }
        if r.err.None? {
          WithoutWithout(m.finalizers, [f], Names(rest));
        }
      }
    }
  }

  /**
   * Draining returns an error whenever some cleaner fails, and returns nil
   * when every cleaner succeeds and no call fails.
   */
  lemma {:induction false} DrainErrors(s: Cluster, m: Manifest, entries: seq<RegistryEntry>)
    requires Agrees(s, m)
    ensures var r := DrainSpec(s, m, entries);
      ((exists k :: 0 <= k < |entries| && RunCleaner(entries[k].cleaner).Some?) ==> r.err.Some?) &&
      (NoFaultsAhead(s) && (forall k :: 0 <= k < |entries| ==> RunCleaner(entries[k].cleaner).None?) ==> r.err.None?)
    decreases |entries|
  {
    if entries != [] && RunCleaner(entries[0].cleaner).None? {
      var removed := RemoveFinalizersStep(s, m, [entries[0].finalizer]);
      RemoveFinalizersFrame(s, m, [entries[0].finalizer]);
      if removed.err.None? {
        DrainErrors(removed.cluster, removed.obj, entries[1..]);
        if exists k :: 0 <= k < |entries| && RunCleaner(entries[k].cleaner).Some? {
          var k :| 0 <= k < |entries| && RunCleaner(entries[k].cleaner).Some?;
          assert entries[1..][k - 1] == entries[k];
        }
        if forall k :: 0 <= k < |entries| ==> RunCleaner(entries[k].cleaner).None? {
          forall k | 0 <= k < |entries[1..]| ensures RunCleaner(entries[1..][k].cleaner).None? {
            assert entries[1..][k] == entries[k + 1];
          }
        }
      }
    }
  }

  /** Removing one finalizer issues one call when it was present and none otherwise. */
  lemma RemoveOneCalls(s: Cluster, m: Manifest, f: string)
    ensures var removed := RemoveFinalizersStep(s, m, [f]);
      s.calls <= removed.cluster.calls &&
      |NewCalls(s, removed.cluster)| == (if f in m.finalizers then 1 else 0) &&
      forall x :: x != f ==> (x in removed.obj.finalizers <==> x in m.finalizers)
  {
    RemoveFinalizersCalls(s, m, [f]);
    RemoveFinalizersResult(s, m, [f]);
    if f in m.finalizers {
      assert !(forall x :: x in m.finalizers ==> x !in [f]);
    } else {
      assert forall x :: x in m.finalizers ==> x !in [f];
    }
  }

  /**
   * Counting the present names of a registry: the first entry, then the
   * rest, where the rest is counted alike on two lists that differ at most
   * in the first entry's name.
   */
  lemma CountPresentHead(a: seq<string>, b: seq<string>, entries: seq<RegistryEntry>)
    requires DistinctNames(entries) && entries != []
    requires forall x :: x != entries[0].finalizer ==> (x in a <==> x in b)
    ensures CountPresent(a, Names(entries)) ==
      (if entries[0].finalizer in a then 1 else 0) + CountPresent(b, Names(entries[1..]))
  {
    var f, rest := entries[0].finalizer, entries[1..];
    NamesAt(entries);
    NamesAt(rest);
    assert Names(entries) == [f] + Names(rest);
    assert ([f] + Names(rest))[1..] == Names(rest);
    forall n | n in Names(rest) ensures n in b <==> n in a {
      var k :| 0 <= k < |Names(rest)| && Names(rest)[k] == n;
      assert n == entries[k + 1].finalizer;
    }
    CountPresentSameMembers(b, a, Names(rest));
  }

  /**
   * A drain that returns nil issues one patch per registry name that was
   * present: finalizers are removed one call at a time, not in a batch.
   */
  lemma {:induction false} DrainPatches(s: Cluster, m: Manifest, entries: seq<RegistryEntry>)
    requires Agrees(s, m) && DistinctNames(entries)
    ensures var r := DrainSpec(s, m, entries);
      s.calls <= r.cluster.calls &&
      (r.err.None? ==> |NewCalls(s, r.cluster)| == CountPresent(m.finalizers, Names(entries)))
    decreases |entries|
  {
    DrainFrame(s, m, entries);
    if entries != [] && RunCleaner(entries[0].cleaner).None? {
      var f, rest := entries[0].finalizer, entries[1..];
      var removed := RemoveFinalizersStep(s, m, [f]);
      if removed.err.None? {
        RemoveFinalizersFrame(s, m, [f]);
        RemoveOneCalls(s, m, f);
        var r := DrainSpec(removed.cluster, removed.obj, rest);
        assert DrainSpec(s, m, entries) == r;
        DrainPatches(removed.cluster, removed.obj, rest);
        DrainFrame(removed.cluster, removed.obj, rest);
        EvolvesTransitive(s, removed.cluster, r.cluster);
        CountPresentHead(m.finalizers, removed.obj.finalizers, entries);
      }
    }
  }

  // ---------------------------------------------------------------------
  // The cache label

  /**
   * ensureDynamicCacheLabel issues no call when the label is already
   * "True"; otherwise the label becomes "True", every other label is kept,
   * and exactly one Update is issued. It writes nothing the reconciler
   * never writes, and a successful Update leaves the in-memory object equal
   * to the stored one.
   */
  lemma EnsureDynamicCacheLabelSpec(s: Cluster, m: Manifest)
    requires Agrees(s, m)
    ensures var r := EnsureDynamicCacheLabelStep(s, m);
      Evolves(s, r.cluster) && Fixed(r.obj) == Fixed(m) && Agrees(r.cluster, r.obj) &&
      r.obj.finalizers == m.finalizers &&
      (HasCacheLabel(m) ==> r == Step(s, m, None)) &&
      (!HasCacheLabel(m) ==>
         NewCalls(s, r.cluster) == [UpdateManifest(m.(labels := r.obj.labels))] &&
         HasCacheLabel(r.obj) && r.obj.labels.Keys == m.labels.Keys + {DynamicCacheLabel} &&
         (forall k :: k in m.labels && k != DynamicCacheLabel ==> r.obj.labels[k] == m.labels[k]) &&
         (r.err.None? ==> Synced(r.cluster, r.obj)))
  {
    if !HasCacheLabel(m) {
      UpdateEvolves(s, m.(labels := m.labels[DynamicCacheLabel := "True"]));
    }
  }

  // ---------------------------------------------------------------------
  // The live path

  /**
   * The job step issues a Get of the job and, only when that Get reports
   * NotFound, one Create of the desired job. It returns nil iff the job was
   * found; after a successful Create it still returns the Get's NotFound.
   * It never touches a manifest and never overwrites a job.
   */
  lemma JobStepSpec(s: Cluster, job: Job)
    ensures var r := JobStep(s, job);
      Evolves(s, r.cluster) && r.cluster.manifests == s.manifests &&
      (r.err.None? <==> !Faulty(s) && job.key in s.jobs) &&
      (!Faulty(s) && job.key !in s.jobs ==>
         NewCalls(s, r.cluster) == [GetJob(job.key), CreateJob(job)] &&
         (r.err == Some(JobGetFailed(NotFound)) <==> r.cluster.jobs == s.jobs[job.key := job]) &&
         (r.err == Some(JobGetFailed(NotFound)) || (r.err.Some? && r.err.value.JobCreateFailed?))) &&
      (Faulty(s) || job.key in s.jobs ==>
         NewCalls(s, r.cluster) == [GetJob(job.key)] && r.cluster.jobs == s.jobs)
  {
    var got := GetJobReply(s, job.key);
    if !Faulty(s) && job.key !in s.jobs {
      CreateJobEvolves(got.cluster, job);
      assert job.key !in s.jobs && job.key in s.jobs[job.key := job];
    }
  }

  /** The pass got past both EnsureFinalizers calls. */
  predicate PastEnsureSteps(err: Option<ReconcileError>) {
    err.None? || err.value.InvalidImage? || err.value.JobGetFailed? || err.value.JobCreateFailed?
  }

  /**
   * Ensuring the finalizers only patches the manifest's finalizers, at
   * most twice, and cannot fail when no call fails.
   */
  lemma EnsureRegisteredFinalizersFrame(s: Cluster, m: Manifest, registry: seq<RegistryEntry>)
    requires Agrees(s, m)
    ensures var r := EnsureRegisteredFinalizersStep(s, m, registry);
      Evolves(s, r.cluster) && Fixed(r.obj) == Fixed(m) && Agrees(r.cluster, r.obj) &&
      |NewCalls(s, r.cluster)| <= 2 &&
      (forall c :: c in NewCalls(s, r.cluster) ==> c.PatchManifest? && c.key == m.key) &&
      (NoFaultsAhead(s) ==> r.err.None?)
  {
    var ensured := EnsureFinalizersStep(s, m, Names(registry));
    EnsureFinalizersFrame(s, m, Names(registry));
    if ensured.err.None? {
      var cached := EnsureFinalizersStep(ensured.cluster, ensured.obj, [CachedFinalizer]);
      EnsureFinalizersFrame(ensured.cluster, ensured.obj, [CachedFinalizer]);
      EvolvesTransitive(s, ensured.cluster, cached.cluster);
    }
  }

  /**
   * Ensuring the finalizers only grows the stored list, and only by
   * registry names and the cached finalizer; when it succeeds the list
   * holds them all. A list without duplicates stays without.
   */
  lemma EnsureRegisteredFinalizersResult(s: Cluster, m: Manifest, registry: seq<RegistryEntry>)
    requires Synced(s, m)
    ensures var r := EnsureRegisteredFinalizersStep(s, m, registry);
      m.key in r.cluster.manifests &&
      var after := r.cluster.manifests[m.key].finalizers;
      (forall x :: x in m.finalizers ==> x in after) &&
      (forall x :: x in after ==> x in m.finalizers || x in Names(registry) || x == CachedFinalizer) &&
      (NoDuplicates(m.finalizers) ==> NoDuplicates(after)) &&
      (r.err.None? ==> Synced(r.cluster, r.obj) && (forall x :: x in Names(registry) ==> x in after) && CachedFinalizer in after)
  {
    var ensured := EnsureFinalizersStep(s, m, Names(registry));
    EnsureFinalizersResult(s, m, Names(registry));
    if ensured.err.None? {
      EnsureFinalizersResult(ensured.cluster, ensured.obj, [CachedFinalizer]);
    }
  }

  /**
   * The live path only patches the manifest's finalizers and issues job
   * calls, and it never writes anything the reconciler never writes.
   */
  lemma LiveFrame(s: Cluster, m: Manifest, registry: seq<RegistryEntry>)
    requires Agrees(s, m)
    ensures var r := LiveSpec(s, m, registry);
      Evolves(s, r.cluster) &&
      forall c :: c in NewCalls(s, r.cluster) ==> (c.PatchManifest? && c.key == m.key) || c.IsJobCall()
  {
    var ensured := EnsureRegisteredFinalizersStep(s, m, registry);
    EnsureRegisteredFinalizersFrame(s, m, registry);
    if ensured.err.None? {
      var name := JobNameFromPackageBundleImage(ensured.obj.key.name, ensured.obj.spec.packageImage);
      if name.Ok? {
        var job := DesiredJob(ensured.obj, name.value);
        JobStepSpec(ensured.cluster, job);
        EvolvesTransitive(s, ensured.cluster, JobStep(ensured.cluster, job).cluster);
      }
    }
  }

  /**
   * On the live path the stored finalizers only grow, and only by registry
   * names and the cached finalizer; once both EnsureFinalizers calls have
   * succeeded they hold every registry name and the cached finalizer, and
   * a list without duplicates stays without.
   */
  lemma LiveFinalizers(s: Cluster, m: Manifest, registry: seq<RegistryEntry>)
    requires Synced(s, m)
    ensures var r := LiveSpec(s, m, registry);
      m.key in r.cluster.manifests &&
      var after := r.cluster.manifests[m.key].finalizers;
      (forall x :: x in m.finalizers ==> x in after) &&
      (forall x :: x in after ==> x in m.finalizers || x in Names(registry) || x == CachedFinalizer) &&
      (NoDuplicates(m.finalizers) ==> NoDuplicates(after)) &&
      (PastEnsureSteps(r.err) ==> (forall x :: x in Names(registry) ==> x in after) && CachedFinalizer in after)
  {
    var ensured := EnsureRegisteredFinalizersStep(s, m, registry);
    EnsureRegisteredFinalizersResult(s, m, registry);
    if ensured.err.None? {
      var name := JobNameFromPackageBundleImage(ensured.obj.key.name, ensured.obj.spec.packageImage);
      if name.Ok? {
        JobStepSpec(ensured.cluster, DesiredJob(ensured.obj, name.value));
      }
    }
  }

  // ---------------------------------------------------------------------
  // A whole pass

  /** Every call in `calls` is of a manifest: no job is read or created. */
  predicate NoJobCalls(calls: seq<Call>) {
    forall c :: c in calls ==> !c.IsJobCall()
  }

  /**
   * When the manifest is found, the Get and the label step leave it
   * stored with its finalizers untouched, issue no job call and no patch,
   * and, unless the label Update failed, leave the in-memory object equal
   * to the stored one.
   */
  lemma Prelude(s: Cluster, req: Key)
    requires WellFormed(s) && req in s.manifests && !Faulty(s)
    ensures var got := GetManifestReply(s, req);
      var labelled := EnsureDynamicCacheLabelStep(got.cluster, s.manifests[req]);
      got.result == Ok(s.manifests[req]) &&
      Evolves(s, labelled.cluster) && NoJobCalls(NewCalls(s, labelled.cluster)) &&
      PatchCount(NewCalls(s, labelled.cluster)) == 0 &&
      Fixed(labelled.obj) == Fixed(s.manifests[req]) && labelled.obj.key == req &&
      labelled.obj.finalizers == s.manifests[req].finalizers &&
      labelled.cluster.manifests[req].finalizers == s.manifests[req].finalizers &&
      (labelled.err.None? ==> Synced(labelled.cluster, labelled.obj))
  {
    var got := GetManifestReply(s, req);
    var m := s.manifests[req];
    EnsureDynamicCacheLabelSpec(got.cluster, m);
    var labelled := EnsureDynamicCacheLabelStep(got.cluster, m);
    EvolvesTransitive(s, got.cluster, labelled.cluster);
    var calls := NewCalls(s, labelled.cluster);
    assert calls == [GetManifest(req)] + NewCalls(got.cluster, labelled.cluster);
    PatchCountAppend([GetManifest(req)], NewCalls(got.cluster, labelled.cluster));
    if !HasCacheLabel(m) {
      PatchCountAppend([UpdateManifest(m.(labels := labelled.obj.labels))], []);
    }
  }

  /**
   * A manifest that is not stored ends the pass after its Get, with nil;
   * any other Get failure ends it with that error.
   */
  lemma ReconcileManifestMissing(s: Cluster, req: Key, registry: seq<RegistryEntry>)
    ensures var r := ReconcileSpec(s, req, registry);
      (!Faulty(s) && req !in s.manifests ==> r == Pass(Record(s, GetManifest(req)), None)) &&
      (Faulty(s) ==> r == Pass(Record(s, GetManifest(req)), Some(GetManifestFailed(ServerError))))
  {
  }

  /**
   * A pass never writes a manifest's identity, spec, status or deletion
   * mark (no status or phase is ever written), never creates or removes a
   * manifest, and never overwrites a job.
   */
  lemma ReconcileFrame(s: Cluster, req: Key, registry: seq<RegistryEntry>)
    requires WellFormed(s)
    ensures var r := ReconcileSpec(s, req, registry);
      Evolves(s, r.cluster) && WellFormed(r.cluster)
  {
    var r := ReconcileSpec(s, req, registry);
    if !Faulty(s) && req in s.manifests {
      Prelude(s, req);
      var got := GetManifestReply(s, req);
      var labelled := EnsureDynamicCacheLabelStep(got.cluster, s.manifests[req]);
      if labelled.err.None? {
        if labelled.obj.deletionRequested {
          DrainFrame(labelled.cluster, labelled.obj, registry);
        } else {
          LiveFrame(labelled.cluster, labelled.obj, registry);
        }
        EvolvesTransitive(s, labelled.cluster, r.cluster);
      }
    }
    EvolvesWellFormed(s, r.cluster);
  }

  /** The facts ReconcileDeleting needs about a drain that starts after the label step. */
  lemma DrainAfterLabel(s: Cluster, s1: Cluster, m1: Manifest, registry: seq<RegistryEntry>)
    requires DistinctNames(registry) && Synced(s1, m1)
    requires Evolves(s, s1) && NoJobCalls(NewCalls(s, s1))
    ensures var d := DrainSpec(s1, m1, registry);
      s.calls <= d.cluster.calls && m1.key in d.cluster.manifests &&
      var after := d.cluster.manifests[m1.key].finalizers;
      NoJobCalls(NewCalls(s, d.cluster)) &&
      (forall x :: x in after ==> x in m1.finalizers) &&
      (forall x :: x in m1.finalizers && x !in Names(registry) ==> x in after) &&
      (forall i :: 0 <= i < |registry| && registry[i].finalizer in m1.finalizers && registry[i].finalizer !in after ==>
         forall j :: 0 <= j <= i ==> RunCleaner(registry[j].cleaner).None?) &&
      ((exists k :: 0 <= k < |registry| && RunCleaner(registry[k].cleaner).Some?) ==> d.err.Some?)
  {
    var d := DrainSpec(s1, m1, registry);
    DrainFrame(s1, m1, registry);
    DrainFinalizers(s1, m1, registry);
    DrainErrors(s1, m1, registry);
    EvolvesTransitive(s, s1, d.cluster);
    assert NewCalls(s, d.cluster) == NewCalls(s, s1) + NewCalls(s1, d.cluster);
  }

  /**
   * When deletion was requested, a pass issues no job call and adds no
   * finalizer; it keeps every finalizer that is not a registry name (the
   * cached finalizer among them); it removes a registry finalizer only
   * after that entry's cleaner, and every cleaner visited before it,
   * returned nil; and it returns an error whenever a cleaner fails.
   */
  lemma ReconcileDeleting(s: Cluster, req: Key, registry: seq<RegistryEntry>)
    requires WellFormed(s) && DistinctNames(registry)
    requires req in s.manifests && s.manifests[req].deletionRequested
    ensures var r := ReconcileSpec(s, req, registry);
      var before := s.manifests[req].finalizers;
      s.calls <= r.cluster.calls && req in r.cluster.manifests &&
      var after := r.cluster.manifests[req].finalizers;
      NoJobCalls(NewCalls(s, r.cluster)) &&
      (forall x :: x in after ==> x in before) &&
      (forall x :: x in before && x !in Names(registry) ==> x in after) &&
      (CachedFinalizer in before && CachedFinalizer !in Names(registry) ==> CachedFinalizer in after) &&
      (forall i :: 0 <= i < |registry| && registry[i].finalizer in before && registry[i].finalizer !in after ==>
         forall j :: 0 <= j <= i ==> RunCleaner(registry[j].cleaner).None?) &&
      ((exists k :: 0 <= k < |registry| && RunCleaner(registry[k].cleaner).Some?) ==> r.err.Some?)
  {
    var r := ReconcileSpec(s, req, registry);
    if !Faulty(s) {
      Prelude(s, req);
      var got := GetManifestReply(s, req);
      var labelled := EnsureDynamicCacheLabelStep(got.cluster, s.manifests[req]);
      if labelled.err.None? {
        var drained := DrainSpec(labelled.cluster, labelled.obj, registry);
        assert r == Pass(drained.cluster, drained.err);
        DrainAfterLabel(s, labelled.cluster, labelled.obj, registry);
      } else {
        assert r == Pass(labelled.cluster, Some(EnsuringCacheLabel(labelled.err.value)));
      }
    }
  }

  /** The facts ReconcileDeletingDrains needs about a drain that starts after the label step. */
  lemma DrainAfterLabelSucceeds(s: Cluster, s1: Cluster, m1: Manifest, registry: seq<RegistryEntry>)
    requires DistinctNames(registry) && Synced(s1, m1) && NoFaultsAhead(s1)
    requires Evolves(s, s1) && PatchCount(NewCalls(s, s1)) == 0
    requires forall k :: 0 <= k < |registry| ==> RunCleaner(registry[k].cleaner).None?
    ensures var d := DrainSpec(s1, m1, registry);
      s.calls <= d.cluster.calls && m1.key in d.cluster.manifests &&
      d.err.None? &&
      d.cluster.manifests[m1.key].finalizers == Without(m1.finalizers, Names(registry)) &&
      PatchCount(NewCalls(s, d.cluster)) == CountPresent(m1.finalizers, Names(registry))
  {
    var d := DrainSpec(s1, m1, registry);
    DrainFrame(s1, m1, registry);
    DrainFinalizers(s1, m1, registry);
    DrainErrors(s1, m1, registry);
    DrainPatches(s1, m1, registry);
    EvolvesTransitive(s, s1, d.cluster);
    PatchCountAppend(NewCalls(s, s1), NewCalls(s1, d.cluster));
    PatchCountUniform(NewCalls(s1, d.cluster));
  }

  /**
   * When deletion was requested, every cleaner succeeds and no call fails,
   * a pass returns nil and leaves the stored list with exactly the registry
   * names filtered out, having issued one patch per registry name that was
   * present.
   */
  lemma ReconcileDeletingDrains(s: Cluster, req: Key, registry: seq<RegistryEntry>)
    requires WellFormed(s) && DistinctNames(registry) && NoFaultsAhead(s)
    requires req in s.manifests && s.manifests[req].deletionRequested
    requires forall k :: 0 <= k < |registry| ==> RunCleaner(registry[k].cleaner).None?
    ensures var r := ReconcileSpec(s, req, registry);
      var before := s.manifests[req].finalizers;
      s.calls <= r.cluster.calls && req in r.cluster.manifests &&
      r.err.None? &&
      r.cluster.manifests[req].finalizers == Without(before, Names(registry)) &&
      PatchCount(NewCalls(s, r.cluster)) == CountPresent(before, Names(registry))
  {
    var r := ReconcileSpec(s, req, registry);
    assert !Faulty(s);
    Prelude(s, req);
    var got := GetManifestReply(s, req);
    var labelled := EnsureDynamicCacheLabelStep(got.cluster, s.manifests[req]);
    assert labelled.err.None?;
    var drained := DrainSpec(labelled.cluster, labelled.obj, registry);
    assert r == Pass(drained.cluster, drained.err);
    DrainAfterLabelSucceeds(s, labelled.cluster, labelled.obj, registry);
  }

  /**
   * With the program's registry and no failing call, a pass over a manifest
   * being deleted returns nil having removed only the object-deployment
   * finalizer: the cached finalizer stays, so the cache is never freed here.
   */
  lemma ReconcileDeletingWithProgramRegistry(s: Cluster, req: Key)
    requires WellFormed(s) && NoFaultsAhead(s)
    requires req in s.manifests && s.manifests[req].deletionRequested
    ensures var r := ReconcileSpec(s, req, FinalizersToCleaners);
      var before := s.manifests[req].finalizers;
      req in r.cluster.manifests &&
      var after := r.cluster.manifests[req].finalizers;
      r.err.None? &&
      after == Without(before, [ObjectDeploymentFinalizer]) &&
      (CachedFinalizer in before ==> CachedFinalizer in after)
  {
    FinalizersToCleanersContents();
    NamesAt(FinalizersToCleaners);
    ReconcileDeletingDrains(s, req, FinalizersToCleaners);
    var before := s.manifests[req].finalizers;
    WithoutMembership(before, [ObjectDeploymentFinalizer]);
    assert CachedFinalizer != ObjectDeploymentFinalizer;
  }

  /**
   * When deletion was not requested, the stored finalizers only grow, and
   * only by registry names and the cached finalizer; a pass that got past
   * both EnsureFinalizers calls leaves every registry name and the cached
   * finalizer stored; a list without duplicates stays without.
   */
  lemma ReconcileLiveFinalizers(s: Cluster, req: Key, registry: seq<RegistryEntry>)
    requires WellFormed(s)
    requires req in s.manifests && !s.manifests[req].deletionRequested
    ensures var r := ReconcileSpec(s, req, registry);
      var before := s.manifests[req].finalizers;
      req in r.cluster.manifests &&
      var after := r.cluster.manifests[req].finalizers;
      (forall x :: x in before ==> x in after) &&
      (forall x :: x in after ==> x in before || x in Names(registry) || x == CachedFinalizer) &&
      (NoDuplicates(before) ==> NoDuplicates(after)) &&
      (PastEnsureSteps(r.err) ==> (forall x :: x in Names(registry) ==> x in after) && CachedFinalizer in after)
  {
    if !Faulty(s) {
      Prelude(s, req);
      var got := GetManifestReply(s, req);
      var labelled := EnsureDynamicCacheLabelStep(got.cluster, s.manifests[req]);
      if labelled.err.None? {
        LiveFinalizers(labelled.cluster, labelled.obj, registry);
      }
    }
  }

  /**
   * On the live path after the label step, the job name is derived from
   * the manifest's own name and image: an image without ':' ends the pass
   * with an error before any job call (the InvalidImage error when no call
   * fails), and the InvalidImage error means the image has no ':'.
   */
  lemma LiveImage(s: Cluster, s1: Cluster, m1: Manifest, registry: seq<RegistryEntry>)
    requires Agrees(s1, m1) && Evolves(s, s1) && NoJobCalls(NewCalls(s, s1))
    ensures var l := LiveSpec(s1, m1, registry);
      var image := m1.spec.packageImage;
      s.calls <= l.cluster.calls &&
      (l.err.Some? && l.err.value.InvalidImage? ==> ':' !in image) &&
      (':' !in image ==> NoJobCalls(NewCalls(s, l.cluster)) && l.err.Some?) &&
      (':' !in image && NoFaultsAhead(s1) ==> l.err == Some(InvalidImage(ImageMissingDigest)))
  {
    var l := LiveSpec(s1, m1, registry);
    var e := EnsureRegisteredFinalizersStep(s1, m1, registry);
    EnsureRegisteredFinalizersFrame(s1, m1, registry);
    EvolvesTransitive(s, s1, e.cluster);
    assert NewCalls(s, e.cluster) == NewCalls(s, s1) + NewCalls(s1, e.cluster);
    JobNameSpec(m1.key.name, m1.spec.packageImage);
    if e.err.None? {
      var name := JobNameFromPackageBundleImage(e.obj.key.name, e.obj.spec.packageImage);
      if name.Ok? {
        JobStepSpec(e.cluster, DesiredJob(e.obj, name.value));
        EvolvesTransitive(s, e.cluster, l.cluster);
      }
    }
  }

  /**
   * On the live path after the label step, a Create is issued only as the
   * last call, right after a Get of the same job that found nothing: the
   * job is the desired one for the manifest and was not stored. The pass
   * returns the Get's NotFound exactly when that Create stored the job.
   */
  lemma LiveCreate(s: Cluster, s1: Cluster, m1: Manifest, registry: seq<RegistryEntry>)
    requires Agrees(s1, m1) && Evolves(s, s1) && NoJobCalls(NewCalls(s, s1))
    ensures var l := LiveSpec(s1, m1, registry);
      var name := JobNameFromPackageBundleImage(m1.key.name, m1.spec.packageImage);
      s.calls <= l.cluster.calls &&
      ((exists c :: c in NewCalls(s, l.cluster) && c.CreateJob?) ==>
         name.Ok? &&
         var job := DesiredJob(m1, name.value);
         job.key !in s1.jobs &&
         (exists prefix :: NewCalls(s, l.cluster) == prefix + [GetJob(job.key), CreateJob(job)] && NoJobCalls(prefix)) &&
         (l.err == Some(JobGetFailed(NotFound)) <==> job.key in l.cluster.jobs && l.cluster.jobs[job.key] == job) &&
         (l.err == Some(JobGetFailed(NotFound)) || (l.err.Some? && l.err.value.JobCreateFailed?)))
  {
    var l := LiveSpec(s1, m1, registry);
    var e := EnsureRegisteredFinalizersStep(s1, m1, registry);
    EnsureRegisteredFinalizersFrame(s1, m1, registry);
    EvolvesTransitive(s, s1, e.cluster);
    var before := NewCalls(s, e.cluster);
    assert before == NewCalls(s, s1) + NewCalls(s1, e.cluster);
    assert NoJobCalls(before);
    if e.err.None? {
      var name := JobNameFromPackageBundleImage(e.obj.key.name, e.obj.spec.packageImage);
      if name.Ok? {
        var job := DesiredJob(e.obj, name.value);
        JobStepSpec(e.cluster, job);
        EvolvesTransitive(s, e.cluster, l.cluster);
        assert NewCalls(s, l.cluster) == before + NewCalls(e.cluster, l.cluster);
        if Faulty(e.cluster) || job.key in e.cluster.jobs {
          forall c | c in NewCalls(s, l.cluster) ensures !c.CreateJob? {
            if c !in before {
              assert c in NewCalls(e.cluster, l.cluster);
            }
          }
        }
      }
    }
  }

  /**
   * On the live path after the label step, when the desired job is already
   * stored, no Create is issued; with no failing call the pass returns nil
   * and its last call is the job's Get: the condition scan writes nothing.
   */
  lemma LiveExistingJob(s: Cluster, s1: Cluster, m1: Manifest, registry: seq<RegistryEntry>)
    requires Agrees(s1, m1) && Evolves(s, s1) && NoJobCalls(NewCalls(s, s1))
    requires JobNameFromPackageBundleImage(m1.key.name, m1.spec.packageImage).Ok?
    requires DesiredJob(m1, JobNameFromPackageBundleImage(m1.key.name, m1.spec.packageImage).value).key in s1.jobs
    ensures var l := LiveSpec(s1, m1, registry);
      var job := DesiredJob(m1, JobNameFromPackageBundleImage(m1.key.name, m1.spec.packageImage).value);
      s.calls <= l.cluster.calls && |NewCalls(s, l.cluster)| > 0 &&
      (forall c :: c in NewCalls(s, l.cluster) ==> !c.CreateJob?) &&
      (NoFaultsAhead(s1) ==> l.err.None? && NewCalls(s, l.cluster)[|NewCalls(s, l.cluster)| - 1] == GetJob(job.key))
  {
    var l := LiveSpec(s1, m1, registry);
    LiveCreate(s, s1, m1, registry);
    var e := EnsureRegisteredFinalizersStep(s1, m1, registry);
    EnsureRegisteredFinalizersFrame(s1, m1, registry);
    EvolvesTransitive(s, s1, e.cluster);
    if e.err.None? {
      var job := DesiredJob(e.obj, JobNameFromPackageBundleImage(e.obj.key.name, e.obj.spec.packageImage).value);
      JobStepSpec(e.cluster, job);
      EvolvesTransitive(s, e.cluster, l.cluster);
      assert NewCalls(s, l.cluster) == NewCalls(s, e.cluster) + NewCalls(e.cluster, l.cluster);
    } else {
      assert NewCalls(s, l.cluster) == NewCalls(s, s1) + NewCalls(s1, e.cluster);
      assert NewCalls(s1, e.cluster) != [];
    }
  }

  /**
   * On the live path after the label step, with no failing call and a
   * desired job that is not stored, the pass creates it, and still returns
   * the Get's NotFound.
   */
  lemma LiveMissingJob(s1: Cluster, m1: Manifest, registry: seq<RegistryEntry>)
    requires Agrees(s1, m1) && NoFaultsAhead(s1)
    requires JobNameFromPackageBundleImage(m1.key.name, m1.spec.packageImage).Ok?
    requires DesiredJob(m1, JobNameFromPackageBundleImage(m1.key.name, m1.spec.packageImage).value).key !in s1.jobs
    ensures var l := LiveSpec(s1, m1, registry);
      var job := DesiredJob(m1, JobNameFromPackageBundleImage(m1.key.name, m1.spec.packageImage).value);
      l.err == Some(JobGetFailed(NotFound)) && l.cluster.jobs == s1.jobs[job.key := job]
  {
    var e := EnsureRegisteredFinalizersStep(s1, m1, registry);
    EnsureRegisteredFinalizersFrame(s1, m1, registry);
    var job := DesiredJob(e.obj, JobNameFromPackageBundleImage(e.obj.key.name, e.obj.spec.packageImage).value);
    JobStepSpec(e.cluster, job);
  }

  /**
   * A pass ends with the InvalidImage error only for a live manifest whose
   * image has no ':'. Such an image never leads to a job call, and a live
   * manifest with it always ends the pass with an error: the InvalidImage
   * one when no call fails. Nothing records the error in the status.
   */
  lemma ReconcileInvalidImage(s: Cluster, req: Key, registry: seq<RegistryEntry>)
    requires WellFormed(s) && DistinctNames(registry) && req in s.manifests
    ensures var r := ReconcileSpec(s, req, registry);
      var m := s.manifests[req];
      s.calls <= r.cluster.calls &&
      (r.err.Some? && r.err.value.InvalidImage? ==> ':' !in m.spec.packageImage && !m.deletionRequested) &&
      (':' !in m.spec.packageImage ==> NoJobCalls(NewCalls(s, r.cluster))) &&
      (':' !in m.spec.packageImage && !m.deletionRequested ==> r.err.Some?) &&
      (':' !in m.spec.packageImage && !m.deletionRequested && NoFaultsAhead(s) ==>
         r.err == Some(InvalidImage(ImageMissingDigest)))
  {
    var r := ReconcileSpec(s, req, registry);
    if !Faulty(s) {
      Prelude(s, req);
      var got := GetManifestReply(s, req);
      var labelled := EnsureDynamicCacheLabelStep(got.cluster, s.manifests[req]);
      if labelled.err.None? {
        if labelled.obj.deletionRequested {
          ReconcileDeleting(s, req, registry);
          DrainFrame(labelled.cluster, labelled.obj, registry);
          assert r == Pass(DrainSpec(labelled.cluster, labelled.obj, registry).cluster,
                           DrainSpec(labelled.cluster, labelled.obj, registry).err);
        } else {
          assert r == LiveSpec(labelled.cluster, labelled.obj, registry);
          LiveImage(s, labelled.cluster, labelled.obj, registry);
        }
      } else {
        assert r == Pass(labelled.cluster, Some(EnsuringCacheLabel(labelled.err.value)));
      }
    }
  }

  /**
   * A pass issues a Create only for a live manifest whose image has a
   * digest, and only as its last call, right after a Get of that job that
   * found nothing. The job is named "job-" + the manifest's name + "-" +
   * the digest, lives in the manifest's own namespace and is given the
   * arguments `--namespace <that namespace> --package-name <name>`. The pass
   * returns the Get's NotFound exactly when the Create stored the job, and
   * the Create's error otherwise.
   */
  lemma ReconcileCreatesOnlyAfterNotFound(s: Cluster, req: Key, registry: seq<RegistryEntry>)
    requires WellFormed(s) && DistinctNames(registry)
    ensures var r := ReconcileSpec(s, req, registry);
      s.calls <= r.cluster.calls &&
      ((exists c :: c in NewCalls(s, r.cluster) && c.CreateJob?) ==>
         req in s.manifests && !s.manifests[req].deletionRequested &&
         var name := JobNameFromPackageBundleImage(req.name, s.manifests[req].spec.packageImage);
         name.Ok? &&
         var job := DesiredJob(s.manifests[req], name.value);
         job.key == Key(req.namespace, name.value) &&
         job.container.args == ["--namespace", req.namespace, "--package-name", req.name] &&
         job.key !in s.jobs &&
         (exists prefix :: NewCalls(s, r.cluster) == prefix + [GetJob(job.key), CreateJob(job)] && NoJobCalls(prefix)) &&
         (r.err == Some(JobGetFailed(NotFound)) <==> job.key in r.cluster.jobs && r.cluster.jobs[job.key] == job) &&
         (r.err == Some(JobGetFailed(NotFound)) || (r.err.Some? && r.err.value.JobCreateFailed?)))
  {
    var r := ReconcileSpec(s, req, registry);
    if !Faulty(s) && req in s.manifests {
      Prelude(s, req);
      var got := GetManifestReply(s, req);
      var labelled := EnsureDynamicCacheLabelStep(got.cluster, s.manifests[req]);
      if labelled.err.None? {
        if labelled.obj.deletionRequested {
          ReconcileDeleting(s, req, registry);
        } else {
          assert r == LiveSpec(labelled.cluster, labelled.obj, registry);
          LiveCreate(s, labelled.cluster, labelled.obj, registry);
          assert DesiredJob(labelled.obj, "") .key.namespace == DesiredJob(s.manifests[req], "").key.namespace;
        }
      } else {
        assert r == Pass(labelled.cluster, Some(EnsuringCacheLabel(labelled.err.value)));
      }
    }
  }

  /**
   * A pass issues no Create when the desired job is already stored. For a
   * live manifest with no failing call it then returns nil, and its last
   * call is the job's Get: the condition scan writes nothing.
   */
  lemma ReconcileExistingJob(s: Cluster, req: Key, registry: seq<RegistryEntry>)
    requires WellFormed(s) && DistinctNames(registry) && req in s.manifests
    requires JobNameFromPackageBundleImage(req.name, s.manifests[req].spec.packageImage).Ok?
    requires Key(req.namespace, JobNameFromPackageBundleImage(req.name, s.manifests[req].spec.packageImage).value) in s.jobs
    ensures var r := ReconcileSpec(s, req, registry);
      s.calls <= r.cluster.calls &&
      (forall c :: c in NewCalls(s, r.cluster) ==> !c.CreateJob?) &&
      (!s.manifests[req].deletionRequested && NoFaultsAhead(s) ==>
         r.err.None? && |NewCalls(s, r.cluster)| > 0 &&
         NewCalls(s, r.cluster)[|NewCalls(s, r.cluster)| - 1] ==
           GetJob(Key(req.namespace, JobNameFromPackageBundleImage(req.name, s.manifests[req].spec.packageImage).value)))
  {
    var r := ReconcileSpec(s, req, registry);
    ReconcileCreatesOnlyAfterNotFound(s, req, registry);
    if !s.manifests[req].deletionRequested && NoFaultsAhead(s) {
      Prelude(s, req);
      var got := GetManifestReply(s, req);
      var labelled := EnsureDynamicCacheLabelStep(got.cluster, s.manifests[req]);
      assert labelled.err.None?;
      assert r == LiveSpec(labelled.cluster, labelled.obj, registry);
      LiveExistingJob(s, labelled.cluster, labelled.obj, registry);
    }
  }

  /**
   * With no failing call, a live manifest with a digest whose job is not
   * stored gets that job created, and the pass still returns the Get's
   * NotFound error.
   */
  lemma ReconcileCreatesMissingJob(s: Cluster, req: Key, registry: seq<RegistryEntry>)
    requires WellFormed(s) && NoFaultsAhead(s) && req in s.manifests && !s.manifests[req].deletionRequested
    requires JobNameFromPackageBundleImage(req.name, s.manifests[req].spec.packageImage).Ok?
    requires Key(req.namespace, JobNameFromPackageBundleImage(req.name, s.manifests[req].spec.packageImage).value) !in s.jobs
    ensures var r := ReconcileSpec(s, req, registry);
      var job := DesiredJob(s.manifests[req], JobNameFromPackageBundleImage(req.name, s.manifests[req].spec.packageImage).value);
      r.err == Some(JobGetFailed(NotFound)) && r.cluster.jobs == s.jobs[job.key := job]
  {
    var r := ReconcileSpec(s, req, registry);
    Prelude(s, req);
    var got := GetManifestReply(s, req);
    var labelled := EnsureDynamicCacheLabelStep(got.cluster, s.manifests[req]);
    assert labelled.err.None?;
    assert r == LiveSpec(labelled.cluster, labelled.obj, registry);
    LiveMissingJob(labelled.cluster, labelled.obj, registry);
  }

  /**
   * After a pass whose Create stored a job, that job is the desired one for
   * the manifest, which is still stored with the same name and image.
   */
  lemma CreatedJobStored(s: Cluster, req: Key, registry: seq<RegistryEntry>)
    requires WellFormed(s) && DistinctNames(registry)
    ensures var r := ReconcileSpec(s, req, registry);
      s.calls <= r.cluster.calls && WellFormed(r.cluster) &&
      ((exists c :: c in NewCalls(s, r.cluster) && c.CreateJob? && c.job.key in r.cluster.jobs) ==>
         req in s.manifests && req in r.cluster.manifests &&
         r.cluster.manifests[req].spec == s.manifests[req].spec &&
         var name := JobNameFromPackageBundleImage(req.name, s.manifests[req].spec.packageImage);
         name.Ok? && Key(req.namespace, name.value) in r.cluster.jobs)
  {
    var r := ReconcileSpec(s, req, registry);
    ReconcileFrame(s, req, registry);
    ReconcileCreatesOnlyAfterNotFound(s, req, registry);
    if exists c :: c in NewCalls(s, r.cluster) && c.CreateJob? && c.job.key in r.cluster.jobs {
      var c :| c in NewCalls(s, r.cluster) && c.CreateJob? && c.job.key in r.cluster.jobs;
      var m := s.manifests[req];
      var job := DesiredJob(m, JobNameFromPackageBundleImage(req.name, m.spec.packageImage).value);
      var prefix :| NewCalls(s, r.cluster) == prefix + [GetJob(job.key), CreateJob(job)] && NoJobCalls(prefix);
      assert c in prefix || c == GetJob(job.key) || c == CreateJob(job);
      assert Fixed(r.cluster.manifests[req]) == Fixed(m);
    }
  }

  /**
   * Get-before-create: once a pass has created the manifest's job, the
   * next pass for the same manifest issues no Create, whatever order that
   * pass visits the registry in.
   */
  lemma ReconcileTwiceCreatesOnce(s: Cluster, req: Key, registry: seq<RegistryEntry>, registry2: seq<RegistryEntry>)
    requires WellFormed(s) && DistinctNames(registry) && DistinctNames(registry2)
    ensures var r1 := ReconcileSpec(s, req, registry);
      var r2 := ReconcileSpec(r1.cluster, req, registry2);
      s.calls <= r1.cluster.calls <= r2.cluster.calls &&
      ((exists c :: c in NewCalls(s, r1.cluster) && c.CreateJob? && c.job.key in r1.cluster.jobs) ==>
         forall c :: c in NewCalls(r1.cluster, r2.cluster) ==> !c.CreateJob?)
  {
    var r1 := ReconcileSpec(s, req, registry);
    CreatedJobStored(s, req, registry);
    ReconcileFrame(r1.cluster, req, registry2);
    if exists c :: c in NewCalls(s, r1.cluster) && c.CreateJob? && c.job.key in r1.cluster.jobs {
      ReconcileExistingJob(r1.cluster, req, registry2);
    }
  }
}
