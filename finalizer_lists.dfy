/**
 * A finalizer list as controller-runtime's `controllerutil` helpers edit it:
 * `ContainsFinalizer` is sequence membership, `AddFinalizer` appends a name
 * that is absent, `RemoveFinalizer` drops every occurrence of a name.
 * `AddAll` and `RemoveAll` apply them to the requested names one after the
 * other, left to right, as the loops of `EnsureFinalizers` and
 * `RemoveFinalizers` do.
 */
module FinalizerLists {

  predicate NoDuplicates(s: seq<string>) {
    forall i, j :: 0 <= i < j < |s| ==> s[i] != s[j]
  }

  /** controllerutil.AddFinalizer: append `f` unless it is already there. */
  function AddFinalizer(fins: seq<string>, f: string): seq<string> {
    if f in fins then fins else fins + [f]
  }

  /** The entries of `fins` that are not among `names`, in their original order. */
  function Without(fins: seq<string>, names: seq<string>): seq<string> {
    if fins == [] then []
    else (if fins[0] in names then [] else [fins[0]]) + Without(fins[1..], names)
  }

  /** controllerutil.RemoveFinalizer: drop every occurrence of `f`. */
  function RemoveFinalizer(fins: seq<string>, f: string): seq<string> {
    Without(fins, [f])
  }

  /** The list after adding each of `names` in turn. */
  function AddAll(fins: seq<string>, names: seq<string>): seq<string>
    decreases |names|
  {
    if names == [] then fins
    else AddFinalizer(AddAll(fins, names[..|names| - 1]), names[|names| - 1])
  }

  /** The list after removing each of `names` in turn. */
  function RemoveAll(fins: seq<string>, names: seq<string>): seq<string>
    decreases |names|
  {
    if names == [] then fins
    else RemoveFinalizer(RemoveAll(fins, names[..|names| - 1]), names[|names| - 1])
  }

  // ---------------------------------------------------------------------
  // Adding

  /** After adding, a name is present iff it was present or was requested. */
  lemma {:induction false} AddAllMembership(fins: seq<string>, names: seq<string>)
    ensures forall x :: x in AddAll(fins, names) <==> x in fins || x in names
    decreases |names|
  {
    if names != [] {
      var init := names[..|names| - 1];
      AddAllMembership(fins, init);
      assert names == init + [names[|names| - 1]];
    }
  }

  /** Adding never moves or drops an existing entry: the old list is a prefix of the new one. */
  lemma {:induction false} AddAllExtends(fins: seq<string>, names: seq<string>)
    ensures fins <= AddAll(fins, names)
    decreases |names|
  {
    if names != [] {
      var init := names[..|names| - 1];
      AddAllExtends(fins, init);
      var mid := AddAll(fins, init);
      assert mid <= AddFinalizer(mid, names[|names| - 1]);
    }
  }

  /** Adding introduces no duplicates, even when a name is requested twice. */
  lemma {:induction false} AddAllNoDuplicates(fins: seq<string>, names: seq<string>)
    requires NoDuplicates(fins)
    ensures NoDuplicates(AddAll(fins, names))
    decreases |names|
  {
    if names != [] {
      var init := names[..|names| - 1];
      var last := names[|names| - 1];
      AddAllNoDuplicates(fins, init);
      var mid := AddAll(fins, init);
      if last !in mid {
        var r := mid + [last];
        forall i, j | 0 <= i < j < |r| ensures r[i] != r[j] {
          if j == |mid| {
            assert r[i] == mid[i] && mid[i] in mid;
          }
        }
      }
    }
  }

  /** Adding leaves the list as it was iff every requested name is already present. */
  lemma {:induction false} AddAllUnchangedIff(fins: seq<string>, names: seq<string>)
    ensures AddAll(fins, names) == fins <==> forall n :: n in names ==> n in fins
    decreases |names|
  {
    AddAllMembership(fins, names);
    if names != [] {
      var init := names[..|names| - 1];
      AddAllUnchangedIff(fins, init);
      if forall n :: n in names ==> n in fins {
        assert forall n :: n in init ==> n in fins by {
          forall n | n in init ensures n in fins {
            assert n in names;
          }
        }
      }
    }
  }

  /** Adding the same names a second time changes nothing. */
  lemma AddAllIdempotent(fins: seq<string>, names: seq<string>)
    ensures AddAll(AddAll(fins, names), names) == AddAll(fins, names)
  {
    AddAllMembership(fins, names);
    AddAllUnchangedIff(AddAll(fins, names), names);
  }

  // ---------------------------------------------------------------------
  // Removing

  /** After removing, a name is present iff it was present and was not requested. */
  lemma {:induction false} WithoutMembership(fins: seq<string>, names: seq<string>)
    ensures forall x :: x in Without(fins, names) <==> x in fins && x !in names
    decreases |fins|
  {
    if fins != [] {
      WithoutMembership(fins[1..], names);
      assert fins == [fins[0]] + fins[1..];
    }
  }

  /**
   * Removing never lengthens the list, shortens it whenever it changes it, and
   * leaves it as it was iff no entry is a requested name.
   */
  lemma {:induction false} WithoutUnchangedIff(fins: seq<string>, names: seq<string>)
    ensures |Without(fins, names)| <= |fins|
    ensures Without(fins, names) != fins ==> |Without(fins, names)| < |fins|
    ensures Without(fins, names) == fins <==> forall x :: x in fins ==> x !in names
    decreases |fins|
  {
    if fins != [] {
      WithoutUnchangedIff(fins[1..], names);
      assert fins == [fins[0]] + fins[1..];
      if fins[0] !in names && Without(fins[1..], names) != fins[1..] {
        var x :| x in fins[1..] && x in names;
        assert x in fins;
      }
    }
  }

  /** Removing a name shortens the list if the name is present, and changes nothing otherwise. */
  lemma RemoveFinalizerEffect(fins: seq<string>, f: string)
    ensures f in fins ==> |RemoveFinalizer(fins, f)| < |fins|
    ensures f !in fins ==> RemoveFinalizer(fins, f) == fins
  {
    WithoutUnchangedIff(fins, [f]);
    assert f in [f];
  }

  /** Removing keeps a list free of duplicates. */
  lemma {:induction false} WithoutNoDuplicates(fins: seq<string>, names: seq<string>)
    requires NoDuplicates(fins)
    ensures NoDuplicates(Without(fins, names))
    decreases |fins|
  {
    if fins != [] {
      var tail := fins[1..];
      WithoutNoDuplicates(tail, names);
      WithoutMembership(tail, names);
      if fins[0] !in names {
        var r := Without(fins, names);
        forall k | 0 <= k < |tail| ensures tail[k] != fins[0] {
          assert tail[k] == fins[k + 1];
        }
        forall i, j | 0 <= i < j < |r| ensures r[i] != r[j] {
          if i == 0 {
            assert r[j] in Without(tail, names);
          } else {
            assert r[i] == Without(tail, names)[i - 1];
          }
        }
      }
    }
  }

  /** Removing one more name from an already filtered list is filtering by the longer list. */
  lemma {:induction false} WithoutSnoc(fins: seq<string>, names: seq<string>, n: string)
    ensures Without(Without(fins, names), [n]) == Without(fins, names + [n])
    decreases |fins|
  {
    if fins != [] {
      var tail := Without(fins[1..], names);
      WithoutSnoc(fins[1..], names, n);
      assert fins[0] in names + [n] <==> fins[0] in names || fins[0] in [n];
      if fins[0] !in names {
        var x := [fins[0]] + tail;
        assert Without(fins, names) == x;
        assert x != [] && x[0] == fins[0] && x[1..] == tail;
        assert Without(x, [n]) == (if fins[0] in [n] then [] else [fins[0]]) + Without(tail, [n]);
      } else {
        assert Without(fins, names) == tail;
      }
    }
  }

  /** Removing the names one at a time is the same as filtering them all out at once. */
  lemma {:induction false} RemoveAllIsWithout(fins: seq<string>, names: seq<string>)
    ensures RemoveAll(fins, names) == Without(fins, names)
    decreases |names|
  {
    if names == [] {
      WithoutUnchangedIff(fins, names);
    } else {
      var init := names[..|names| - 1];
      RemoveAllIsWithout(fins, init);
      WithoutSnoc(fins, init, names[|names| - 1]);
      assert init + [names[|names| - 1]] == names;
    }
  }

  /** Removing `x` and then `y` one at a time is removing `x + y`. */
  lemma {:induction false} RemoveAllAppend(fins: seq<string>, x: seq<string>, y: seq<string>)
    ensures RemoveAll(RemoveAll(fins, x), y) == RemoveAll(fins, x + y)
    decreases |y|
  {
    if y == [] {
      assert x + y == x;
    } else {
      var init := y[..|y| - 1];
      RemoveAllAppend(fins, x, init);
      assert (x + y)[..|x + y| - 1] == x + init;
    }
  }

  /** Filtering out `x` and then `y` is filtering out `x + y`. */
  lemma WithoutWithout(fins: seq<string>, x: seq<string>, y: seq<string>)
    ensures Without(Without(fins, x), y) == Without(fins, x + y)
  {
    RemoveAllAppend(fins, x, y);
    RemoveAllIsWithout(fins, x);
    RemoveAllIsWithout(Without(fins, x), y);
    RemoveAllIsWithout(fins, x + y);
  }

  /** How many of `names` are present in `fins`. */
  function CountPresent(fins: seq<string>, names: seq<string>): nat {
    if names == [] then 0
    else (if names[0] in fins then 1 else 0) + CountPresent(fins, names[1..])
  }

  /** The count only depends on which of `names` are present. */
  lemma {:induction false} CountPresentSameMembers(a: seq<string>, b: seq<string>, names: seq<string>)
    requires forall n :: n in names ==> (n in a <==> n in b)
    ensures CountPresent(a, names) == CountPresent(b, names)
  {
    if names != [] {
      assert names[0] in names;
      forall n | n in names[1..] ensures n in names { }
      CountPresentSameMembers(a, b, names[1..]);
    }
  }
}
