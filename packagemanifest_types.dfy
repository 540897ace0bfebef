/**
 * The PackageManifest finalizer registry: each finalizer name the
 * controller sets on a manifest, with the cleaner that must succeed before
 * that finalizer may be removed.
 *
 * Go keeps the registry in a map, and ranging over a map visits its keys in
 * an order the runtime picks anew each time. A registry is therefore a
 * sequence of entries with distinct names, in the order one range statement
 * visits them; every property below is stated for every such sequence, so
 * it holds whatever order the runtime picks.
 */
module PackageManifestTypes {
  import opened Wrappers
  import opened FinalizerLists

  /** Guards the ObjectDeployment a manifest owns. */
  const ObjectDeploymentFinalizer: string := "package-operator.run/package-manifest/object-deployment"

  /**
   * A cleaner, as the behaviour it has. `ObjectDeploymentCleaner` is the one
   * the program registers; `FailingCleaner` stands for any cleaner that
   * returns an error, so that the deletion path's failure handling can be
   * stated.
   */
  datatype Cleaner = ObjectDeploymentCleaner | FailingCleaner(reason: string)

  datatype RegistryEntry = RegistryEntry(finalizer: string, cleaner: Cleaner)

  /**
   * What a cleaner returns. Neither kind issues a client call: the
   * registered one is a placeholder that only returns nil.
   */
  function RunCleaner(c: Cleaner): (err: Option<string>)
    ensures err.None? <==> c == ObjectDeploymentCleaner
  {
    match c
    case ObjectDeploymentCleaner => None
    case FailingCleaner(reason) => Some(reason)
  }

  /** The names of a registry, in iteration order. */
  function Names(registry: seq<RegistryEntry>): seq<string> {
    if registry == [] then [] else [registry[0].finalizer] + Names(registry[1..])
  }

  /** A registry is a map: no name appears twice. */
  predicate DistinctNames(registry: seq<RegistryEntry>) {
    forall i, j :: 0 <= i < j < |registry| ==> registry[i].finalizer != registry[j].finalizer
  }

  /** FinalizersToCleaners: the only registered finalizer and its cleaner. */
  const FinalizersToCleaners: seq<RegistryEntry> := [RegistryEntry(ObjectDeploymentFinalizer, ObjectDeploymentCleaner)]

  /** Names lists the entries' names one for one, in order. */
  lemma {:induction false} NamesAt(registry: seq<RegistryEntry>)
    ensures |Names(registry)| == |registry|
    ensures forall i :: 0 <= i < |registry| ==> Names(registry)[i] == registry[i].finalizer
  {
    if registry != [] {
      NamesAt(registry[1..]);
    }
  }

  /**
   * packageManifestFinalizers: the registry's keys as strings, appended one
   * by one in the order the range statement visits them. The result lists
   * every key once, and nothing else.
   */
  method PackageManifestFinalizers(registry: seq<RegistryEntry>) returns (res: seq<string>)
    requires DistinctNames(registry)
    ensures |res| == |registry|
    ensures forall f :: f in res <==> exists e :: e in registry && e.finalizer == f
    ensures NoDuplicates(res)
    ensures res == Names(registry)
  {
    res := [];
    for i := 0 to |registry|
      invariant |res| == i
      invariant forall k :: 0 <= k < i ==> res[k] == registry[k].finalizer
    {
      res := res + [registry[i].finalizer];
    }
    forall f | f in res ensures exists e :: e in registry && e.finalizer == f {
      var k :| 0 <= k < |res| && res[k] == f;
      assert registry[k] in registry;
    }
    forall f | exists e :: e in registry && e.finalizer == f ensures f in res {
      var e :| e in registry && e.finalizer == f;
      var k :| 0 <= k < |registry| && registry[k] == e;
      assert res[k] == f;
    }
    NamesAt(registry);
    NamesDistinct(registry);
  }

  /** A registry's name list has no duplicates. */
  lemma NamesDistinct(registry: seq<RegistryEntry>)
    requires DistinctNames(registry)
    ensures NoDuplicates(Names(registry))
  {
    NamesAt(registry);
  }

  /**
   * The program's registry has exactly one entry, ObjectDeploymentFinalizer,
   * whose cleaner returns nil.
   */
  lemma FinalizersToCleanersContents()
    ensures DistinctNames(FinalizersToCleaners)
    ensures Names(FinalizersToCleaners) == [ObjectDeploymentFinalizer]
    ensures forall e :: e in FinalizersToCleaners ==> RunCleaner(e.cleaner).None?
  {
    NamesAt(FinalizersToCleaners);
  }
}
