/**
 * jobNameFromPackageBundleImage: the package-loader job's name, derived
 * from the manifest's name and the digest at the end of its package image
 * reference. `strings.Split` on a single separator character is modelled
 * with its round trip: the tokens hold no separator, and joining them with
 * the separator gives back the input.
 */
module JobNames {
  import opened Wrappers

  /** strings.Split(s, string(sep)). */
  function Split(s: string, sep: char): (tokens: seq<string>)
    ensures |tokens| >= 1
  {
    if s == [] then [""]
    else if s[0] == sep then [""] + Split(s[1..], sep)
    else
      var rest := Split(s[1..], sep);
      [[s[0]] + rest[0]] + rest[1..]
  }

  /** strings.Join(tokens, string(sep)). */
  function Join(tokens: seq<string>, sep: char): string {
    if tokens == [] then ""
    else if |tokens| == 1 then tokens[0]
    else tokens[0] + [sep] + Join(tokens[1..], sep)
  }

  /** Splitting then joining gives back the input, and no token holds the separator. */
  lemma {:induction false} SplitJoin(s: string, sep: char)
    ensures Join(Split(s, sep), sep) == s
    ensures forall t :: t in Split(s, sep) ==> sep !in t
  {
    if s != [] {
      SplitJoin(s[1..], sep);
      var rest := Split(s[1..], sep);
      if s[0] == sep {
        assert Split(s, sep) == [""] + rest;
        assert s == [] + [sep] + s[1..];
      } else {
        var t := Split(s, sep);
        assert t == [[s[0]] + rest[0]] + rest[1..];
        assert t[1..] == rest[1..];
        assert rest[0] in rest;
        forall u | u in t ensures sep !in u {
          if u != t[0] {
            assert u in rest[1..];
            assert u in rest;
          }
        }
        if |rest| == 1 {
          assert s == [s[0]] + rest[0];
        } else {
          assert Join(rest, sep) == rest[0] + [sep] + Join(rest[1..], sep);
          assert s == [s[0]] + (rest[0] + [sep] + Join(rest[1..], sep));
        }
      }
    }
  }

  /** Splitting yields a single token iff the separator does not occur. */
  lemma {:induction false} SplitSingleIff(s: string, sep: char)
    ensures |Split(s, sep)| == 1 <==> sep !in s
  {
    SplitJoin(s, sep);
    var tokens := Split(s, sep);
    if |tokens| == 1 {
      assert tokens[0] in tokens;
    } else {
      assert s == tokens[0] + [sep] + Join(tokens[1..], sep);
      assert s[|tokens[0]|] == sep;
    }
  }

  /** Joining at least two tokens puts the separator just before the last one. */
  lemma {:induction false} JoinLast(tokens: seq<string>, sep: char)
    requires |tokens| >= 2
    ensures Join(tokens, sep) == Join(tokens[..|tokens| - 1], sep) + [sep] + tokens[|tokens| - 1]
    decreases |tokens|
  {
    if |tokens| > 2 {
      var tail := tokens[1..];
      JoinLast(tail, sep);
      assert tail[..|tail| - 1] == tokens[..|tokens| - 1][1..];
      assert tail[|tail| - 1] == tokens[|tokens| - 1];
    } else {
      assert tokens[..1] == [tokens[0]];
      assert tokens[1..] == [tokens[1]];
    }
  }

  /** What jobNameFromPackageBundleImage fails with. */
  datatype JobNameError = ImageMissingDigest  // "image not found to be in the right format with digest"

  /** jobNameFromPackageBundleImage. */
  function JobNameFromPackageBundleImage(packageName: string, packageBundleImage: string)
    : (r: Result<string, JobNameError>)
  {
    var colonTokenizedImage := Split(packageBundleImage, ':');
    if |colonTokenizedImage| == 1 then Err(ImageMissingDigest)
    else
      var digest := colonTokenizedImage[|colonTokenizedImage| - 1];
      Ok("job-" + packageName + "-" + digest)
  }

  /**
   * The name is refused iff the image holds no ':', the empty image
   * included. Otherwise the image is some prefix, a ':' and a digest that
   * holds no ':', and the name is "job-" + packageName + "-" + digest.
   */
  lemma JobNameSpec(packageName: string, packageBundleImage: string)
    ensures JobNameFromPackageBundleImage(packageName, packageBundleImage).Err? <==> ':' !in packageBundleImage
    ensures JobNameFromPackageBundleImage(packageName, packageBundleImage).Ok? ==>
      exists prefix: string, digest: string ::
        packageBundleImage == prefix + ":" + digest && ':' !in digest &&
        JobNameFromPackageBundleImage(packageName, packageBundleImage).value == "job-" + packageName + "-" + digest
  {
    var tokens := Split(packageBundleImage, ':');
    SplitSingleIff(packageBundleImage, ':');
    SplitJoin(packageBundleImage, ':');
    if |tokens| > 1 {
      var digest := tokens[|tokens| - 1];
      var prefix := Join(tokens[..|tokens| - 1], ':');
      JoinLast(tokens, ':');
      assert digest in tokens;
      assert packageBundleImage == prefix + ":" + digest;
    }
  }

  /** A string without the separator splits into itself alone. */
  lemma {:induction false} SplitNoSep(s: string, sep: char)
    requires sep !in s
    ensures Split(s, sep) == [s]
  {
    if s != [] {
      assert s[0] in s;
      assert sep !in s[1..] by {
        forall c | c in s[1..] ensures c in s { }
      }
      SplitNoSep(s[1..], sep);
      assert [s[0]] + s[1..] == s;
    }
  }

  /** Splitting around one separator concatenates the tokens of both sides. */
  lemma {:induction false} SplitAround(a: string, sep: char, b: string)
    ensures Split(a + [sep] + b, sep) == Split(a, sep) + Split(b, sep)
  {
    var s := a + [sep] + b;
    if a == [] {
      assert s == [sep] + b && s[1..] == b;
    } else {
      assert s[0] == a[0] && s[1..] == a[1..] + [sep] + b;
      SplitAround(a[1..], sep, b);
    }
  }

  /** The digest is exactly the text after the last ':' of the image. */
  lemma DigestIsAfterLastColon(packageName: string, prefix: string, digest: string)
    requires ':' !in digest
    ensures JobNameFromPackageBundleImage(packageName, prefix + ":" + digest) == Ok("job-" + packageName + "-" + digest)
  {
    SplitAround(prefix, ':', digest);
    SplitNoSep(digest, ':');
  }

  /** The example: a digest reference yields "job-foo-abc123". */
  lemma JobNameExampleDigest()
    ensures JobNameFromPackageBundleImage("foo", "registry/img@sha256:abc123") == Ok("job-foo-abc123")
  {
    var prefix, digest := "registry/img@sha256", "abc123";
    assert prefix + ":" + digest == "registry/img@sha256:abc123";
    assert ':' !in digest;
    DigestIsAfterLastColon("foo", prefix, digest);
    assert "job-" + "foo" + "-" + digest == "job-foo-abc123";
  }

  /** The example: a reference without a digest is refused. */
  lemma JobNameExampleNoDigest()
    ensures JobNameFromPackageBundleImage("foo", "registry/img") == Err(ImageMissingDigest)
  {
    SplitNoSep("registry/img", ':');
  }
}
