/**
 The path-rewriting callback of the `build:inject` task (gulp/build.js).
 Given the configured source directory `src` (written like "./src/"), the
 path of the HTML file being injected into and the path of the injected
 asset, it computes the reference written into that HTML file.
 */
module InjectTransform {
  import opened JsString

  /** `config.src.slice(2)`: the source directory without its leading "./". */
  function Root(src: string): (root: string)
    ensures 2 <= |src| ==> root == src[2..]
    ensures |src| < 2 ==> root == []
  {
    Slice(src, 2)
  }

  /** The target file's path after the first occurrence of the root, that is
      the target's location inside the source directory. */
  function TargetPath(src: string, target: string): (tp: string)
    ensures |tp| <= |target| && tp == target[|target| - |tp|..]
    ensures forall i :: FirstOccurrence(target, Root(src), i) ==> tp == target[i + |Root(src)|..]
    ensures !Occurs(target, Root(src)) ==>
              1 <= |Root(src)| &&
              tp == target[if |Root(src)| - 1 <= |target| then |Root(src)| - 1 else |target|..]
    ensures Root(src) == [] ==> tp == target
  {
    var root := Root(src);
    Slice(target, IndexOf(target, root) + |root|)
  }

  /** `f` has a '/' at index `j`, and `j` is the first such index after 0. */
  predicate FirstSlashAfterHead(f: string, j: int) {
    1 <= j < |f| && f[j] == '/' && forall k :: 1 <= k < j ==> f[k] != '/'
  }

  /** `filepath.slice(filepath.slice(1).indexOf('/') + 2)`: drops the leading
      directory segment of the asset path. When there is no '/' after index 0,
      `indexOf` gives -1, so only the first character is dropped. */
  function StripLeadingSegment(f: string): (stripped: string)
    ensures |stripped| <= |f| && stripped == f[|f| - |stripped|..]
    ensures f != [] ==> |stripped| < |f|
    ensures forall j :: FirstSlashAfterHead(f, j) ==> stripped == f[j + 1..]
    ensures '/' !in Slice(f, 1) ==> stripped == Slice(f, 1)
  {
    var tail := Slice(f, 1);
    IndexOfChar(tail, '/');
    var r := Slice(f, IndexOf(tail, "/") + 2);
    assert f != [] ==> tail == f[1..];
    assert forall j :: FirstSlashAfterHead(f, j) ==> IndexOf(tail, "/") == j - 1 by {
      forall j | FirstSlashAfterHead(f, j)
        ensures IndexOf(tail, "/") == j - 1
      {
        assert tail[j - 1] == '/';
      }
    }
    r
  }

  /** `if(targetpath.indexOf('/') + 1) { filepath = '../' + filepath; }`:
      one "../" in front when the target path still holds a '/', that is when
      the target lies in a sub-directory of the source directory. */
  function Relativize(tp: string, stripped: string): (reference: string)
    ensures '/' in tp ==> reference == "../" + stripped
    ensures '/' !in tp ==> reference == stripped
  {
    IndexOfChar(tp, '/');
    if IndexOf(tp, "/") + 1 != 0 then "../" + stripped else stripped
  }

  /** The callback's result: the stripped asset path, with one "../" in front
      when the target lies in a sub-directory of the source directory. */
  function Transform(src: string, target: string, f: string): (reference: string)
    ensures '/' in TargetPath(src, target) ==> reference == "../" + StripLeadingSegment(f)
    ensures '/' !in TargetPath(src, target) ==> reference == StripLeadingSegment(f)
  {
    Relativize(TargetPath(src, target), StripLeadingSegment(f))
  }

  /** However deep the target is nested, at most one "../" is added: any two
      target paths inside sub-directories give the same reference. This is a
      corollary of the first postcondition of `Relativize`, stated on its own
      because it is the property the script relies on. */
  lemma OneParentStepAtAnyDepth(tp1: string, tp2: string, stripped: string)
    requires '/' in tp1 && '/' in tp2
    ensures Relativize(tp1, stripped) == Relativize(tp2, stripped) == "../" + stripped
  {
  }
}
