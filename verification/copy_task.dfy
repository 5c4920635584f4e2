/**
 The `build:copy` task (gulp/build.js): when `config.copyfiles` is not
 empty, every entry is prefixed in place with `config.src` and the prefixed
 list is handed to the copy plugin as its sources.
 */
module CopyTask {

  /** The entries of `files`, each with `src` in front, in the same order. */
  function Prefixed(src: string, files: seq<string>): seq<string> {
    seq(|files|, i requires 0 <= i < |files| => src + files[i])
  }

  /** What the task does with the configured list. */
  datatype Outcome =
    | Skipped                          // empty list: the task returns without copying
    | Copied(sources: seq<string>)     // the list after the loop, given to `gulp.src`

  /** The loop of gulp/build.js:53-55: entry `i` becomes `src + entry i`,
      one index at a time, over the length read before the loop starts. */
  method PrefixCopyFiles(src: string, files: seq<string>) returns (r: seq<string>)
    ensures |r| == |files|
    ensures forall i :: 0 <= i < |r| ==> r[i] == src + files[i]
    ensures r == Prefixed(src, files)
  {
    r := files;
    var i, l := 0, |r|;
    while i < l
      invariant 0 <= i <= l == |r| == |files|
      invariant forall k :: 0 <= k < i ==> r[k] == src + files[k]
      invariant forall k :: i <= k < l ==> r[k] == files[k]
    {
      r := r[i := src + r[i]];
      i := i + 1;
    }
  }

  /** The task body: skip an empty list, otherwise prefix and copy. */
  method Run(src: string, files: seq<string>) returns (outcome: Outcome, after: seq<string>)
    ensures outcome.Skipped? <==> |files| == 0
    ensures outcome.Copied? ==> outcome.sources == after
    ensures |after| == |files|
    ensures forall i :: 0 <= i < |after| ==> after[i] == src + files[i]
  {
    if |files| != 0 {
      after := PrefixCopyFiles(src, files);
      outcome := Copied(after);
    } else {
      after := files;
      outcome := Skipped;
    }
  }

  /** Running the loop a second time prefixes a second time. */
  lemma {:induction false} PrefixTwice(src: string, files: seq<string>)
    ensures Prefixed(src, Prefixed(src, files)) == Prefixed(src + src, files)
  {
    var once := Prefixed(src, files);
    forall i | 0 <= i < |files|
      ensures Prefixed(src, once)[i] == Prefixed(src + src, files)[i]
    {
      assert src + (src + files[i]) == (src + src) + files[i];
    }
  }

  /** So the loop is not idempotent: with a non-empty `config.src` and at
      least one entry, a second run changes the list. */
  lemma {:induction false} PrefixNotIdempotent(src: string, files: seq<string>)
    requires src != [] && files != []
    ensures Prefixed(src, Prefixed(src, files)) != Prefixed(src, files)
  {
    assert |Prefixed(src, Prefixed(src, files))[0]| == |src| + |src| + |files[0]|;
  }
}
