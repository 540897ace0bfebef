/**
 * The finalizer helpers shared by the controllers: add or remove named
 * finalizers on an object and persist the new list with at most one merge
 * patch, and the two compositions built on them for the cache finalizer.
 *
 * `EnsureFinalizersStep` and `RemoveFinalizersStep` say what a call does to
 * the cluster and to the in-memory object; the methods are proved to do
 * exactly that, and the lemmas state what the helpers promise.
 */
module Controllers {
  import opened Wrappers
  import opened Kube
  import opened FinalizerLists

  /** Set on all dynamic objects to limit caches. */
  const DynamicCacheLabel: string := "package-operator.run/cache"

  /** Common finalizer to free allocated caches when objects are deleted. */
  const CachedFinalizer: string := "package-operator.run/cached"

  /** The errors the helpers return, each wrapping its cause. */
  datatype FinalizerError =
    | AddingFinalizer(cause: ApiError)    // "adding finalizer: %w"
    | RemovingFinalizer(cause: ApiError)  // "removing finalizer: %w"
    | FreeCache(reason: string)           // "free cache: %w"

  /** What EnsureFinalizers(ctx, c, obj, names...) does. */
  function EnsureFinalizersStep(s: Cluster, m: Manifest, names: seq<string>): Step<FinalizerError> {
    var fins := AddAll(m.finalizers, names);
    if fins == m.finalizers then Step(s, m, None)
    else
      var edited := m.(finalizers := fins);
      var reply := PatchReply(s, m.key, MergePatch(m.resourceVersion, fins));
      match reply.result
      case Err(e) => Step(reply.cluster, edited, Some(AddingFinalizer(e)))
      case Ok(stored) => Step(reply.cluster, stored, None)
  }

  /** What RemoveFinalizers(ctx, c, obj, names...) does. */
  function RemoveFinalizersStep(s: Cluster, m: Manifest, names: seq<string>): Step<FinalizerError> {
    var fins := RemoveAll(m.finalizers, names);
    if fins == m.finalizers then Step(s, m, None)
    else
      var edited := m.(finalizers := fins);
      var reply := PatchReply(s, m.key, MergePatch(m.resourceVersion, fins));
      match reply.result
      case Err(e) => Step(reply.cluster, edited, Some(RemovingFinalizer(e)))
      case Ok(stored) => Step(reply.cluster, stored, None)
  }

  /** Ensures the given finalizers are set and persisted on the given object. */
  method EnsureFinalizers(c: Client, obj: ManifestObject, finalizers: seq<string>)
    returns (err: Option<FinalizerError>)
    modifies c, obj
    ensures Step(c.State(), obj.Value(), err) == EnsureFinalizersStep(old(c.State()), old(obj.Value()), finalizers)
  {
    var noFinalizersToPatch := true;
    for i := 0 to |finalizers|
      invariant obj.finalizers == AddAll(old(obj.finalizers), finalizers[..i])
      invariant old(obj.finalizers) <= obj.finalizers
      invariant noFinalizersToPatch == (obj.finalizers == old(obj.finalizers))
      invariant obj.Value() == old(obj.Value()).(finalizers := obj.finalizers)
      invariant c.State() == old(c.State())
    {
      var finalizer := finalizers[i];
      assert finalizers[..i + 1] == finalizers[..i] + [finalizer];
      if finalizer in obj.finalizers {
        continue;
      }
      noFinalizersToPatch := false;
      obj.finalizers := AddFinalizer(obj.finalizers, finalizer);
    }
    assert finalizers[..|finalizers|] == finalizers;
    if noFinalizersToPatch {
      return None;
    }
    var patch := MergePatch(obj.resourceVersion, obj.finalizers);
    var patchErr := c.Patch(obj, patch);
    if patchErr.Some? {
      return Some(AddingFinalizer(patchErr.value));
    }
    return None;
  }

  /** Removes the given finalizers and persists the change. */
  method RemoveFinalizers(c: Client, obj: ManifestObject, finalizers: seq<string>)
    returns (err: Option<FinalizerError>)
    modifies c, obj
    ensures Step(c.State(), obj.Value(), err) == RemoveFinalizersStep(old(c.State()), old(obj.Value()), finalizers)
  {
    var noFinalizersToPatch := true;
    for i := 0 to |finalizers|
      invariant obj.finalizers == RemoveAll(old(obj.finalizers), finalizers[..i])
      invariant |obj.finalizers| <= |old(obj.finalizers)|
      invariant noFinalizersToPatch == (obj.finalizers == old(obj.finalizers))
      invariant obj.Value() == old(obj.Value()).(finalizers := obj.finalizers)
      invariant c.State() == old(c.State())
    {
      var finalizer := finalizers[i];
      assert finalizers[..i + 1] == finalizers[..i] + [finalizer];
      RemoveFinalizerEffect(obj.finalizers, finalizer);
      if finalizer !in obj.finalizers {
        continue;
      }
      noFinalizersToPatch := false;
      obj.finalizers := RemoveFinalizer(obj.finalizers, finalizer);
    }
    assert finalizers[..|finalizers|] == finalizers;
    if noFinalizersToPatch {
      return None;
    }
    var patch := MergePatch(obj.resourceVersion, obj.finalizers);
    var patchErr := c.Patch(obj, patch);
    if patchErr.Some? {
      return Some(RemovingFinalizer(patchErr.value));
    }
    return None;
  }

  /** EnsureFinalizers with the single name CachedFinalizer. */
  method EnsureCachedFinalizer(c: Client, obj: ManifestObject) returns (err: Option<FinalizerError>)
    modifies c, obj
    ensures Step(c.State(), obj.Value(), err) == EnsureFinalizersStep(old(c.State()), old(obj.Value()), [CachedFinalizer])
  {
    err := EnsureFinalizers(c, obj, [CachedFinalizer]);
  }

  /**
   * The cacheFreer collaborator. Its `Free` is outside this model; `failure`
   * is what it returns, and `freed` records the objects it was asked to free.
   */
  class CacheFreer {
    const failure: Option<string>
    var freed: seq<Key>

    constructor (failure: Option<string>)
      ensures this.failure == failure && freed == []
    {
      this.failure := failure;
      freed := [];
    }

    method Free(obj: ManifestObject) returns (err: Option<string>)
      modifies this
      ensures err == failure
      ensures freed == if failure.None? then old(freed) + [obj.key] else old(freed)
    {
      err := failure;
      if failure.None? {
        freed := freed + [obj.key];
      }
    }
  }

  /** Frees caches and removes the associated finalizer. */
  method FreeCacheAndRemoveFinalizer(c: Client, obj: ManifestObject, cache: CacheFreer)
    returns (err: Option<FinalizerError>)
    modifies c, obj, cache
    ensures cache.failure.Some? ==>
      err == Some(FreeCache(cache.failure.value)) && c.State() == old(c.State()) && obj.Value() == old(obj.Value())
    ensures cache.failure.None? ==>
      Step(c.State(), obj.Value(), err) == RemoveFinalizersStep(old(c.State()), old(obj.Value()), [CachedFinalizer])
    ensures cache.freed == if cache.failure.None? then old(cache.freed) + [old(obj.key)] else old(cache.freed)
  {
    var freeErr := cache.Free(obj);
    if freeErr.Some? {
      return Some(FreeCache(freeErr.value));
    }
    err := RemoveFinalizers(c, obj, [CachedFinalizer]);
  }

  // ---------------------------------------------------------------------
  // What EnsureFinalizers promises

  /**
   * EnsureFinalizers issues no call at all when every requested name is
   * already present, and otherwise exactly one merge patch carrying the
   * object's resourceVersion and its whole updated finalizer list.
   */
  lemma EnsureFinalizersCalls(s: Cluster, m: Manifest, names: seq<string>)
    ensures var r := EnsureFinalizersStep(s, m, names);
      ((forall n :: n in names ==> n in m.finalizers) ==> r == Step(s, m, None)) &&
      (!(forall n :: n in names ==> n in m.finalizers) ==>
         r.cluster.calls == s.calls + [PatchManifest(m.key, MergePatch(m.resourceVersion, AddAll(m.finalizers, names)))])
  {
    AddAllUnchangedIff(m.finalizers, names);
  }

  /**
   * After EnsureFinalizers, with or without a patch error, the in-memory
   * list holds exactly the old names and the requested ones, keeps the old
   * ones in place, and has no duplicates if it had none. On a patch error
   * the store is untouched; on success the store holds the new list and
   * nothing else of the object changed but its resourceVersion.
   */
  lemma EnsureFinalizersResult(s: Cluster, m: Manifest, names: seq<string>)
    ensures var r := EnsureFinalizersStep(s, m, names);
      (forall x :: x in r.obj.finalizers <==> x in m.finalizers || x in names) &&
      m.finalizers <= r.obj.finalizers &&
      (NoDuplicates(m.finalizers) ==> NoDuplicates(r.obj.finalizers)) &&
      r.cluster.jobs == s.jobs && r.cluster.faults == s.faults &&
      (var patched := PatchReply(s, m.key, MergePatch(m.resourceVersion, AddAll(m.finalizers, names)));
       (r.err.Some? <==> AddAll(m.finalizers, names) != m.finalizers && patched.result.Err?) &&
       (r.err.Some? ==> r.err.value == AddingFinalizer(patched.result.error))) &&
      (r.err.Some? ==> r.cluster.manifests == s.manifests && r.obj == m.(finalizers := AddAll(m.finalizers, names))) &&
      (r.err.None? && Synced(s, m) ==>
         Synced(r.cluster, r.obj) && r.cluster.manifests == s.manifests[m.key := r.obj] &&
         r.obj == m.(finalizers := r.obj.finalizers, resourceVersion := r.obj.resourceVersion))
  {
    AddAllMembership(m.finalizers, names);
    AddAllExtends(m.finalizers, names);
    if NoDuplicates(m.finalizers) {
      AddAllNoDuplicates(m.finalizers, names);
    }
  }

  /**
   * Calling EnsureFinalizers a second time with the same names, after a
   * successful first call, changes nothing and issues no call: two calls
   * write at most once in total.
   */
  lemma EnsureFinalizersTwice(s: Cluster, m: Manifest, names: seq<string>)
    requires EnsureFinalizersStep(s, m, names).err.None?
    ensures var r := EnsureFinalizersStep(s, m, names);
      EnsureFinalizersStep(r.cluster, r.obj, names) == Step(r.cluster, r.obj, None)
  {
    var r := EnsureFinalizersStep(s, m, names);
    assert r.obj.finalizers == AddAll(m.finalizers, names);
    AddAllIdempotent(m.finalizers, names);
  }

  // ---------------------------------------------------------------------
  // What RemoveFinalizers promises

  /**
   * RemoveFinalizers issues no call at all when none of the names is
   * present, and otherwise exactly one merge patch carrying the object's
   * resourceVersion and its whole remaining finalizer list.
   */
  lemma RemoveFinalizersCalls(s: Cluster, m: Manifest, names: seq<string>)
    ensures var r := RemoveFinalizersStep(s, m, names);
      ((forall x :: x in m.finalizers ==> x !in names) ==> r == Step(s, m, None)) &&
      (!(forall x :: x in m.finalizers ==> x !in names) ==>
         r.cluster.calls == s.calls + [PatchManifest(m.key, MergePatch(m.resourceVersion, Without(m.finalizers, names)))])
  {
    RemoveAllIsWithout(m.finalizers, names);
    WithoutUnchangedIff(m.finalizers, names);
  }

  /**
   * After RemoveFinalizers, with or without a patch error, the in-memory
   * list is the old one with every requested name filtered out and every
   * other entry kept in order. On a patch error the store is untouched; on
   * success the store holds the new list and nothing else of the object
   * changed but its resourceVersion.
   */
  lemma RemoveFinalizersResult(s: Cluster, m: Manifest, names: seq<string>)
    ensures var r := RemoveFinalizersStep(s, m, names);
      r.obj.finalizers == Without(m.finalizers, names) &&
      (forall x :: x in r.obj.finalizers <==> x in m.finalizers && x !in names) &&
      (NoDuplicates(m.finalizers) ==> NoDuplicates(r.obj.finalizers)) &&
      r.cluster.jobs == s.jobs && r.cluster.faults == s.faults &&
      (var patched := PatchReply(s, m.key, MergePatch(m.resourceVersion, Without(m.finalizers, names)));
       (r.err.Some? <==> Without(m.finalizers, names) != m.finalizers && patched.result.Err?) &&
       (r.err.Some? ==> r.err.value == RemovingFinalizer(patched.result.error))) &&
      (r.err.Some? ==> r.cluster.manifests == s.manifests && r.obj == m.(finalizers := r.obj.finalizers)) &&
      (r.err.None? && Synced(s, m) ==>
         Synced(r.cluster, r.obj) && r.cluster.manifests == s.manifests[m.key := r.obj] &&
         r.obj == m.(finalizers := r.obj.finalizers, resourceVersion := r.obj.resourceVersion))
  {
    RemoveAllIsWithout(m.finalizers, names);
    WithoutMembership(m.finalizers, names);
    if NoDuplicates(m.finalizers) {
      WithoutNoDuplicates(m.finalizers, names);
    }
  }

  // ---------------------------------------------------------------------
  // What neither helper touches

  /**
   * EnsureFinalizers writes nothing but the finalizer list and the
   * resourceVersion: the store only evolves, the in-memory object keeps its
   * identity, spec, status and deletion mark and still agrees with the
   * store, and the only call it may issue is one patch of that object.
   */
  lemma EnsureFinalizersFrame(s: Cluster, m: Manifest, names: seq<string>)
    requires Agrees(s, m)
    ensures var r := EnsureFinalizersStep(s, m, names);
      Evolves(s, r.cluster) && Fixed(r.obj) == Fixed(m) && Agrees(r.cluster, r.obj) &&
      |NewCalls(s, r.cluster)| <= 1 &&
      forall c :: c in NewCalls(s, r.cluster) ==> c.PatchManifest? && c.key == m.key
  {
    var fins := AddAll(m.finalizers, names);
    if fins != m.finalizers {
      PatchEvolves(s, m.key, MergePatch(m.resourceVersion, fins));
    }
  }

  /** RemoveFinalizers writes nothing but the finalizer list and the resourceVersion. */
  lemma RemoveFinalizersFrame(s: Cluster, m: Manifest, names: seq<string>)
    requires Agrees(s, m)
    ensures var r := RemoveFinalizersStep(s, m, names);
      Evolves(s, r.cluster) && Fixed(r.obj) == Fixed(m) && Agrees(r.cluster, r.obj) &&
      |NewCalls(s, r.cluster)| <= 1 &&
      forall c :: c in NewCalls(s, r.cluster) ==> c.PatchManifest? && c.key == m.key
  {
    var fins := RemoveAll(m.finalizers, names);
    if fins != m.finalizers {
      PatchEvolves(s, m.key, MergePatch(m.resourceVersion, fins));
    }
  }
}
