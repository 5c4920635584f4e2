/**
 What an injected reference points at: a reference is resolved against the
 directories that contain the target HTML file, each leading "../" climbing
 one directory. This is the yardstick against which the transform of the
 `build:inject` task (gulp/build.js) is measured.
 */
module PathResolution {
  import opened JsString
  import opened InjectTransform

  /** Segments joined back together with '/' between them. */
  function Join(segs: seq<string>): string
    requires 1 <= |segs|
  {
    if |segs| == 1 then segs[0] else segs[0] + "/" + Join(segs[1..])
  }

  /** The '/'-separated segments of a path: the directories, then the file. */
  function Segments(p: string): (segs: seq<string>)
    ensures 1 <= |segs|
    ensures forall i :: 0 <= i < |segs| ==> '/' !in segs[i]
    ensures Join(segs) == p
    ensures '/' in p <==> 2 <= |segs|
    decreases |p|
  {
    if '/' !in p then [p]
    else
      IndexOfChar(p, '/');
      var k := IndexOf(p, "/");
      var rest := Segments(p[k + 1..]);
      var segs := [p[..k]] + rest;
      assert segs[1..] == rest;
      assert p == p[..k] + "/" + p[k + 1..];
      segs
  }

  /** The directories, outermost first, that contain the file at path `p`. */
  function Directories(p: string): seq<string> {
    var segs := Segments(p);
    segs[..|segs| - 1]
  }

  /** How many directories deep the file at path `p` lies. */
  function Depth(p: string): nat {
    |Segments(p)| - 1
  }

  /** The path prefix naming a directory: each directory followed by '/'. */
  function DirPrefix(dirs: seq<string>): string {
    if dirs == [] then "" else dirs[0] + "/" + DirPrefix(dirs[1..])
  }

  /** The directory one level up; the top stays where it is. */
  function Parent(dirs: seq<string>): seq<string> {
    if dirs == [] then [] else dirs[..|dirs| - 1]
  }

  /** `reference` begins by climbing one directory. */
  predicate ClimbsUp(reference: string) {
    3 <= |reference| && reference[..3] == "../"
  }

  /** The location a reference found in a file inside `dirs` points at. */
  function Resolve(dirs: seq<string>, reference: string): string
    decreases |reference|
  {
    if ClimbsUp(reference) then Resolve(Parent(dirs), reference[3..])
    else DirPrefix(dirs) + reference
  }

  /** The reference written for target path `tp`, resolved from the
      directory of the target, lands on the stripped asset path `s` placed
      under the parent of that directory: the innermost directory is climbed
      out of, and no other. */
  lemma {:induction false} ReferenceResolvesOneLevelUp(tp: string, s: string)
    requires !ClimbsUp(s)
    ensures Resolve(Directories(tp), Relativize(tp, s)) == DirPrefix(Parent(Directories(tp))) + s
  {
    if '/' in tp {
      var reference := "../" + s;
      assert reference[..3] == "../" && reference[3..] == s;
    } else {
      assert Directories(tp) == [];
    }
  }

  /** For a target at the top of the source directory or one level below
      it, the reference resolves to exactly the stripped asset path. */
  lemma {:induction false} RoundTripUpToOneLevel(tp: string, s: string)
    requires Depth(tp) <= 1
    requires !ClimbsUp(s)
    ensures Resolve(Directories(tp), Relativize(tp, s)) == s
  {
    ReferenceResolvesOneLevelUp(tp, s);
    assert Parent(Directories(tp)) == [];
  }

  /** For a target two or more levels below the source directory, the single
      "../" is not enough: the reference resolves under the target's outer
      directories, not to the stripped asset path. */
  lemma {:induction false} DeeperTargetsMissTheAsset(tp: string, s: string)
    requires 2 <= Depth(tp)
    requires !ClimbsUp(s)
    ensures Resolve(Directories(tp), Relativize(tp, s)) != s
  {
    ReferenceResolvesOneLevelUp(tp, s);
    var outer := Parent(Directories(tp));
    assert outer != [];
    assert |DirPrefix(outer)| >= 1;
  }
}
