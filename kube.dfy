/**
 * The part of the cluster API the reconciler talks to: PackageManifest and
 * Job objects as values, an object store with a call log and a fault
 * schedule, the in-memory manifest the reconciler edits, and a client
 * whose calls read and write the store.
 *
 * Every client call is described twice: as a function from one `Cluster`
 * value to the next (`GetManifestReply`, `PatchReply`, ...), and as a
 * method of `Client` proved to move its fields exactly as that function
 * says. A call whose index in the log is in `faults` fails with
 * `ServerError`; that stands for every failure the API server may report
 * (a resourceVersion conflict, a timeout, a refused request).
 */
module Kube {
  import opened Wrappers

  /** client.ObjectKey: namespace and name. */
  datatype Key = Key(namespace: string, name: string)

  /** PackageManifestSpec. */
  datatype ManifestSpec = ManifestSpec(packageImage: string, targetNamespace: string)

  /** PackageManifestStatusPhase. */
  datatype Phase = Pending | Available | Failed

  /** PackageManifestStatus, reduced to its phase. */
  datatype ManifestStatus = ManifestStatus(phase: Phase)

  /** A PackageManifest: the metadata the reconciler uses, its spec and its status. */
  datatype Manifest = Manifest(
    key: Key,
    finalizers: seq<string>,
    labels: map<string, string>,
    resourceVersion: nat,
    deletionRequested: bool,  // metadata.deletionTimestamp is set
    spec: ManifestSpec,
    status: ManifestStatus)

  /** batchv1.JobConditionType. */
  datatype JobConditionType = JobComplete | JobFailed | JobOtherCondition(name: string)

  /** corev1.ConditionStatus. */
  datatype ConditionStatus = ConditionTrue | ConditionFalse | ConditionUnknown

  datatype JobCondition = JobCondition(conditionType: JobConditionType, status: ConditionStatus)

  /** The single container of a package-loader job's pod template. */
  datatype Container = Container(name: string, image: string, command: seq<string>, args: seq<string>)

  /** A batchv1.Job: its key, its container and the conditions in its status. */
  datatype Job = Job(key: Key, container: Container, conditions: seq<JobCondition>)

  /** What a client call can fail with. */
  datatype ApiError = NotFound | AlreadyExists | ServerError

  /** The body of a JSON merge patch on metadata: `resourceVersion` and the whole finalizer list. */
  datatype MergePatch = MergePatch(resourceVersion: nat, finalizers: seq<string>)

  /** One client call, as recorded in the log. */
  datatype Call =
    | GetManifest(key: Key)
    | PatchManifest(key: Key, patch: MergePatch)
    | UpdateManifest(manifest: Manifest)
    | GetJob(key: Key)
    | CreateJob(job: Job)
  {
    predicate IsJobCall() { GetJob? || CreateJob? }
  }

  /**
   * The stored objects, every call made so far, and the indices of the calls
   * that fail.
   */
  datatype Cluster = Cluster(
    manifests: map<Key, Manifest>,
    jobs: map<Key, Job>,
    calls: seq<Call>,
    faults: set<nat>)

  /** The cluster after a call, and what the call returned. */
  datatype Reply<+T> = Reply(cluster: Cluster, result: Result<T, ApiError>)

  /**
   * The cluster, the in-memory manifest and the error after one of the
   * reconciler's steps.
   */
  datatype Step<+E> = Step(cluster: Cluster, obj: Manifest, err: Option<E>)

  /** The next call fails. */
  predicate Faulty(s: Cluster) {
    |s.calls| in s.faults
  }

  function Record(s: Cluster, c: Call): Cluster {
    s.(calls := s.calls + [c])
  }

  /** Every stored object sits under its own key. */
  ghost predicate WellFormed(s: Cluster) {
    (forall k :: k in s.manifests ==> s.manifests[k].key == k) &&
    (forall k :: k in s.jobs ==> s.jobs[k].key == k)
  }

  /** The in-memory manifest `m` is exactly what the store holds under its key. */
  ghost predicate Synced(s: Cluster, m: Manifest) {
    m.key in s.manifests && s.manifests[m.key] == m
  }

  /** The parts of a manifest the reconciler never writes: identity, spec, status and the deletion mark. */
  function Fixed(m: Manifest): (Key, ManifestSpec, ManifestStatus, bool) {
    (m.key, m.spec, m.status, m.deletionRequested)
  }

  /** The in-memory manifest `m` agrees with the store on everything the reconciler never writes. */
  ghost predicate Agrees(s: Cluster, m: Manifest) {
    m.key in s.manifests && Fixed(s.manifests[m.key]) == Fixed(m)
  }

  /**
   * `s'` follows `s`: calls were only appended, no manifest appeared or
   * vanished or had its identity, spec, status or deletion mark rewritten,
   * every job already stored is still stored unchanged, and every job
   * added is stored under its own key.
   */
  ghost predicate Evolves(s: Cluster, s': Cluster) {
    s.calls <= s'.calls && s'.faults == s.faults &&
    s'.manifests.Keys == s.manifests.Keys &&
    (forall k :: k in s.manifests ==> Fixed(s'.manifests[k]) == Fixed(s.manifests[k])) &&
    (forall k :: k in s.jobs ==> k in s'.jobs && s'.jobs[k] == s.jobs[k]) &&
    (forall k :: k in s'.jobs && k !in s.jobs ==> s'.jobs[k].key == k)
  }

  /** A store that only evolves stays well formed. */
  lemma EvolvesWellFormed(s: Cluster, s': Cluster)
    requires WellFormed(s) && Evolves(s, s')
    ensures WellFormed(s')
  {
  }

  /** The calls issued between `s` and `s'`. */
  function NewCalls(s: Cluster, s': Cluster): seq<Call>
    requires s.calls <= s'.calls
  {
    s'.calls[|s.calls|..]
  }

  /** No call issued from `s` on fails. */
  ghost predicate NoFaultsAhead(s: Cluster) {
    forall i :: i in s.faults ==> i < |s.calls|
  }

  /** How many of `calls` are merge patches. */
  function PatchCount(calls: seq<Call>): nat {
    if calls == [] then 0
    else (if calls[0].PatchManifest? then 1 else 0) + PatchCount(calls[1..])
  }

  lemma {:induction false} PatchCountAppend(a: seq<Call>, b: seq<Call>)
    ensures PatchCount(a + b) == PatchCount(a) + PatchCount(b)
  {
    if a != [] {
      assert (a + b)[0] == a[0] && (a + b)[1..] == a[1..] + b;
      PatchCountAppend(a[1..], b);
    } else {
      assert a + b == b;
    }
  }

  /** Counting patches in a list that holds only patches, or none. */
  lemma {:induction false} PatchCountUniform(calls: seq<Call>)
    ensures (forall c :: c in calls ==> c.PatchManifest?) ==> PatchCount(calls) == |calls|
    ensures (forall c :: c in calls ==> !c.PatchManifest?) ==> PatchCount(calls) == 0
  {
    if calls != [] {
      assert calls[0] in calls;
      assert forall c :: c in calls[1..] ==> c in calls;
      PatchCountUniform(calls[1..]);
    }
  }

  lemma EvolvesTransitive(s1: Cluster, s2: Cluster, s3: Cluster)
    requires Evolves(s1, s2) && Evolves(s2, s3)
    ensures Evolves(s1, s3)
    ensures NewCalls(s1, s3) == NewCalls(s1, s2) + NewCalls(s2, s3)
  {
  }

  /** client.Get of a PackageManifest. */
  function GetManifestReply(s: Cluster, key: Key): (r: Reply<Manifest>)
    ensures r.cluster == Record(s, GetManifest(key))
    ensures r.result.Ok? <==> !Faulty(s) && key in s.manifests
    ensures r.result.Ok? ==> r.result.value == s.manifests[key]
    ensures r.result == Err(NotFound) <==> !Faulty(s) && key !in s.manifests
  {
    var s' := Record(s, GetManifest(key));
    if Faulty(s) then Reply(s', Err(ServerError))
    else if key !in s.manifests then Reply(s', Err(NotFound))
    else Reply(s', Ok(s.manifests[key]))
  }

  /**
   * client.Patch with a merge patch on metadata: only the finalizers are
   * replaced; the server bumps the resourceVersion and returns the stored
   * object.
   */
  function PatchReply(s: Cluster, key: Key, patch: MergePatch): (r: Reply<Manifest>)
    ensures r.cluster.calls == s.calls + [PatchManifest(key, patch)]
    ensures r.cluster.jobs == s.jobs && r.cluster.faults == s.faults
    ensures r.result.Ok? <==> !Faulty(s) && key in s.manifests
    ensures r.result.Err? ==> r.cluster.manifests == s.manifests
    ensures r.result.Ok? ==>
      var old_ := s.manifests[key];
      r.result.value == old_.(finalizers := patch.finalizers, resourceVersion := old_.resourceVersion + 1) &&
      r.cluster.manifests == s.manifests[key := r.result.value]
  {
    var s' := Record(s, PatchManifest(key, patch));
    if Faulty(s) then Reply(s', Err(ServerError))
    else if key !in s.manifests then Reply(s', Err(NotFound))
    else
      var stored := s.manifests[key];
      var patched := stored.(finalizers := patch.finalizers, resourceVersion := stored.resourceVersion + 1);
      Reply(s'.(manifests := s.manifests[key := patched]), Ok(patched))
  }

  /**
   * client.Update: labels, finalizers and spec are replaced by the sent
   * object's; status (a subresource) and the deletion mark stay as stored;
   * the server bumps the resourceVersion and returns the stored object.
   */
  function UpdateReply(s: Cluster, m: Manifest): (r: Reply<Manifest>)
    ensures r.cluster.calls == s.calls + [UpdateManifest(m)]
    ensures r.cluster.jobs == s.jobs && r.cluster.faults == s.faults
    ensures r.result.Ok? <==> !Faulty(s) && m.key in s.manifests
    ensures r.result.Err? ==> r.cluster.manifests == s.manifests
    ensures r.result.Ok? ==>
      var old_ := s.manifests[m.key];
      r.result.value == old_.(labels := m.labels, finalizers := m.finalizers, spec := m.spec,
                              resourceVersion := old_.resourceVersion + 1) &&
      r.cluster.manifests == s.manifests[m.key := r.result.value]
  {
    var s' := Record(s, UpdateManifest(m));
    if Faulty(s) then Reply(s', Err(ServerError))
    else if m.key !in s.manifests then Reply(s', Err(NotFound))
    else
      var stored := s.manifests[m.key];
      var updated := stored.(labels := m.labels, finalizers := m.finalizers, spec := m.spec,
                             resourceVersion := stored.resourceVersion + 1);
      Reply(s'.(manifests := s.manifests[m.key := updated]), Ok(updated))
  }

  /** client.Get of a Job. */
  function GetJobReply(s: Cluster, key: Key): (r: Reply<Job>)
    ensures r.cluster == Record(s, GetJob(key))
    ensures r.result.Ok? <==> !Faulty(s) && key in s.jobs
    ensures r.result.Ok? ==> r.result.value == s.jobs[key]
    ensures r.result == Err(NotFound) <==> !Faulty(s) && key !in s.jobs
  {
    var s' := Record(s, GetJob(key));
    if Faulty(s) then Reply(s', Err(ServerError))
    else if key !in s.jobs then Reply(s', Err(NotFound))
    else Reply(s', Ok(s.jobs[key]))
  }

  /** client.Create of a Job: refused when the key is taken. */
  function CreateJobReply(s: Cluster, job: Job): (r: Reply<Job>)
    ensures r.cluster.calls == s.calls + [CreateJob(job)]
    ensures r.cluster.manifests == s.manifests && r.cluster.faults == s.faults
    ensures r.result.Ok? <==> !Faulty(s) && job.key !in s.jobs
    ensures r.result.Ok? ==> r.cluster.jobs == s.jobs[job.key := job] && r.result.value == job
    ensures r.result.Err? ==> r.cluster.jobs == s.jobs
  {
    var s' := Record(s, CreateJob(job));
    if Faulty(s) then Reply(s', Err(ServerError))
    else if job.key in s.jobs then Reply(s', Err(AlreadyExists))
    else Reply(s'.(jobs := s.jobs[job.key := job]), Ok(job))
  }

  /**
   * A merge patch on metadata writes nothing but finalizers and the
   * resourceVersion: the store only evolves, and the object it returns
   * agrees with the store.
   */
  lemma PatchEvolves(s: Cluster, key: Key, patch: MergePatch)
    ensures var r := PatchReply(s, key, patch);
      Evolves(s, r.cluster) && NewCalls(s, r.cluster) == [PatchManifest(key, patch)] &&
      (r.result.Ok? ==> Fixed(r.result.value) == Fixed(s.manifests[key]) &&
                        (Fixed(s.manifests[key]).0 == key ==> Agrees(r.cluster, r.result.value)))
  {
  }

  /**
   * An Update of an object that agrees with the store writes nothing the
   * reconciler never writes: the store only evolves, and the object it
   * returns agrees with the store.
   */
  lemma UpdateEvolves(s: Cluster, m: Manifest)
    requires Agrees(s, m)
    ensures var r := UpdateReply(s, m);
      Evolves(s, r.cluster) && NewCalls(s, r.cluster) == [UpdateManifest(m)] &&
      (r.result.Ok? ==> Fixed(r.result.value) == Fixed(m) && Agrees(r.cluster, r.result.value))
  {
  }

  /** Creating a job never overwrites a stored one. */
  lemma CreateJobEvolves(s: Cluster, job: Job)
    ensures var r := CreateJobReply(s, job);
      Evolves(s, r.cluster) && NewCalls(s, r.cluster) == [CreateJob(job)]
  {
  }

  /** The reconciler's in-memory copy of a PackageManifest, edited in place. */
  class ManifestObject {
    var key: Key
    var finalizers: seq<string>
    var labels: map<string, string>
    var resourceVersion: nat
    var deletionRequested: bool
    var spec: ManifestSpec
    var status: ManifestStatus

    /** The zero value `PackageManifest{}`. */
    constructor Empty()
      ensures finalizers == [] && labels == map[] && resourceVersion == 0 && !deletionRequested
    {
      key := Key("", "");
      finalizers := [];
      labels := map[];
      resourceVersion := 0;
      deletionRequested := false;
      spec := ManifestSpec("", "");
      status := ManifestStatus(Pending);
    }

    function Value(): Manifest
      reads this
    {
      Manifest(key, finalizers, labels, resourceVersion, deletionRequested, spec, status)
    }

    /** Overwrite every field with the object the server returned. */
    method Assign(m: Manifest)
      modifies this
      ensures Value() == m
    {
      key, finalizers, labels, resourceVersion := m.key, m.finalizers, m.labels, m.resourceVersion;
      deletionRequested, spec, status := m.deletionRequested, m.spec, m.status;
    }
  }

  /** A client over the store; each call is appended to `calls`. */
  class Client {
    var manifests: map<Key, Manifest>
    var jobs: map<Key, Job>
    var calls: seq<Call>
    const faults: set<nat>

    constructor (manifests: map<Key, Manifest>, jobs: map<Key, Job>, faults: set<nat>)
      ensures State() == Cluster(manifests, jobs, [], faults)
    {
      this.manifests := manifests;
      this.jobs := jobs;
      this.calls := [];
      this.faults := faults;
    }

    function State(): Cluster
      reads this
    {
      Cluster(manifests, jobs, calls, faults)
    }

    /** Get(ctx, key, obj): on success the stored manifest is copied into `obj`. */
    method Get(key: Key, obj: ManifestObject) returns (err: Option<ApiError>)
      modifies this, obj
      ensures var r := GetManifestReply(old(State()), key);
        State() == r.cluster &&
        (r.result.Ok? ==> err == None && obj.Value() == r.result.value) &&
        (r.result.Err? ==> err == Some(r.result.error) && obj.Value() == old(obj.Value()))
    {
      var faulty := |calls| in faults;
      calls := calls + [GetManifest(key)];
      if faulty {
        return Some(ServerError);
      }
      if key !in manifests {
        return Some(NotFound);
      }
      obj.Assign(manifests[key]);
      return None;
    }

    /** Patch(ctx, obj, patch): on success the stored manifest is copied into `obj`. */
    method Patch(obj: ManifestObject, patch: MergePatch) returns (err: Option<ApiError>)
      modifies this, obj
      ensures var r := PatchReply(old(State()), old(obj.key), patch);
        State() == r.cluster &&
        (r.result.Ok? ==> err == None && obj.Value() == r.result.value) &&
        (r.result.Err? ==> err == Some(r.result.error) && obj.Value() == old(obj.Value()))
    {
      var key := obj.key;
      var faulty := |calls| in faults;
      calls := calls + [PatchManifest(key, patch)];
      if faulty {
        return Some(ServerError);
      }
      if key !in manifests {
        return Some(NotFound);
      }
      var stored := manifests[key];
      var patched := stored.(finalizers := patch.finalizers, resourceVersion := stored.resourceVersion + 1);
      manifests := manifests[key := patched];
      obj.Assign(patched);
      return None;
    }

    /** Update(ctx, obj): on success the stored manifest is copied into `obj`. */
    method Update(obj: ManifestObject) returns (err: Option<ApiError>)
      modifies this, obj
      ensures var r := UpdateReply(old(State()), old(obj.Value()));
        State() == r.cluster &&
        (r.result.Ok? ==> err == None && obj.Value() == r.result.value) &&
        (r.result.Err? ==> err == Some(r.result.error) && obj.Value() == old(obj.Value()))
    {
      var m := obj.Value();
      var faulty := |calls| in faults;
      calls := calls + [UpdateManifest(m)];
      if faulty {
        return Some(ServerError);
      }
      if m.key !in manifests {
        return Some(NotFound);
      }
      var stored := manifests[m.key];
      var updated := stored.(labels := m.labels, finalizers := m.finalizers, spec := m.spec,
                             resourceVersion := stored.resourceVersion + 1);
      manifests := manifests[m.key := updated];
      obj.Assign(updated);
      return None;
    }

    /** Get(ctx, key, &job). */
    method GetJob(key: Key) returns (r: Result<Job, ApiError>)
      modifies this
      ensures (State(), r) == (GetJobReply(old(State()), key).cluster, GetJobReply(old(State()), key).result)
    {
      var faulty := |calls| in faults;
      calls := calls + [Call.GetJob(key)];
      if faulty {
        return Err(ServerError);
      }
      if key !in jobs {
        return Err(NotFound);
      }
      return Ok(jobs[key]);
    }

    /** Create(ctx, &job). */
    method CreateJob(job: Job) returns (err: Option<ApiError>)
      modifies this
      ensures var r := CreateJobReply(old(State()), job);
        State() == r.cluster && err == (if r.result.Ok? then None else Some(r.result.error))
    {
      var faulty := |calls| in faults;
      calls := calls + [Call.CreateJob(job)];
      if faulty {
        return Some(ServerError);
      }
      if job.key in jobs {
        return Some(AlreadyExists);
      }
      jobs := jobs[job.key := job];
      return None;
    }
  }
}
