/**
 The `build:inject` path transform (gulp/build.js) on whole families of
 inputs: the layout the build script expects (`config.src` is "./src/" and
 the injected assets come from the temporary folder ".tmp" inside it), a root
 missing from the target path, an empty root, and a source directory written
 as an absolute path. Each family is stated for every input of its shape and
 then for one concrete instance. An instance fixes its inputs by `requires`
 rather than taking literal arguments, because on literal arguments the
 solver would evaluate the string searches character by character.
 */
module InjectExamples {
  import opened JsString
  import opened InjectTransform

  /** Any asset path under "/src/" loses exactly that leading segment. */
  lemma {:induction false} StripUnderSrc(asset: string)
    requires 5 <= |asset| && asset[..5] == "/src/"
    ensures StripLeadingSegment(asset) == asset[5..]
  {
    assert FirstSlashAfterHead(asset, 4);
  }

  /** Any asset path with no '/' after its first character loses only that
      character. */
  lemma {:induction false} StripWithoutSlash(asset: string)
    requires asset != [] && '/' !in asset[1..]
    ensures StripLeadingSegment(asset) == asset[1..]
  {
  }

  /** With a root of "src/", a target `base` + "src/" + `tp` in which "src/"
      does not start inside `base` has the target path `tp`. The target is
      the page's full path, so `base` is wherever the project lies. */
  lemma {:induction false} UnderSrcTargetPath(src: string, target: string, base: string, tp: string)
    requires 2 <= |src| && src[2..] == "src/"
    requires target == base + "src/" + tp
    requires forall j :: 0 <= j < |base| ==> !OccursAt(target, "src/", j)
    ensures TargetPath(src, target) == tp
  {
    assert Root(src) == "src/";
    assert target[|base|..|base| + 4] == "src/";
    assert FirstOccurrence(target, "src/", |base|);
    assert target[|base| + 4..] == tp;
  }

  /** "src/" cannot start inside a `base` that holds no 's'. */
  lemma {:induction false} RootNotInBase(target: string, base: string, tp: string)
    requires target == base + "src/" + tp && 's' !in base
    ensures forall j :: 0 <= j < |base| ==> !OccursAt(target, "src/", j)
  {
    forall j | 0 <= j < |base|
      ensures !OccursAt(target, "src/", j)
    {
      assert target[j] == base[j];
      assert j + 4 <= |target| ==> target[j..j + 4][0] == target[j];
    }
  }

  /** Every page directly in the source directory gets no "../": the
      reference to an asset "/src/" + `stripped` is `stripped`. The project
      lies under any `base` without an 's', so that "src/" is first found
      where the source directory starts. */
  lemma {:induction false} TopLevelUnderSrc(src: string, target: string, asset: string, base: string, tp: string, stripped: string)
    requires 2 <= |src| && src[2..] == "src/"
    requires target == base + "src/" + tp && '/' !in tp
    requires 's' !in base
    requires asset == "/src/" + stripped
    ensures Transform(src, target, asset) == stripped
  {
    assert asset[..5] == "/src/" && asset[5..] == stripped;
    RootNotInBase(target, base, tp);
    UnderSrcTargetPath(src, target, base, tp);
    StripUnderSrc(asset);
  }

  /** Every page in a sub-directory of the source directory, however deep,
      gets one "../": the reference to an asset "/src/" + `stripped` is
      "../" + `stripped`, for a project under any `base` without an 's'.
      Because the root is searched for from the start of
      the full path, a directory above the project whose name ends in "src"
      also makes `tp` hold a '/', and a top-level page then gets a "../" as
      well (`EnclosingSrcDirectory`). */
  lemma {:induction false} NestedUnderSrc(src: string, target: string, asset: string, base: string, tp: string, stripped: string)
    requires 2 <= |src| && src[2..] == "src/"
    requires target == base + "src/" + tp && '/' in tp
    requires 's' !in base
    requires asset == "/src/" + stripped
    ensures Transform(src, target, asset) == "../" + stripped
  {
    assert asset[..5] == "/src/" && asset[5..] == stripped;
    RootNotInBase(target, base, tp);
    UnderSrcTargetPath(src, target, base, tp);
    StripUnderSrc(asset);
  }

  /** With `config.src` of at most two characters the root is empty and the
      whole target path is kept. */
  lemma {:induction false} EmptyRootKeepsTarget(src: string, target: string)
    requires |src| <= 2
    ensures TargetPath(src, target) == target
  {
    assert Root(src) == [];
  }

  /** A page at the top of the source directory. */
  lemma {:induction false} TopLevelPage(src: string, target: string, asset: string)
    requires src == "./src/" && target == "/src/index.html" && asset == "/src/.tmp/style.css"
    ensures Transform(src, target, asset) == ".tmp/style.css"
  {
    TopLevelUnderSrc(src, target, asset, "/", "index.html", ".tmp/style.css");
  }

  /** A page one directory down. */
  lemma {:induction false} NestedPage(src: string, target: string, asset: string)
    requires src == "./src/" && target == "/src/pages/about.html" && asset == "/src/.tmp/style.css"
    ensures Transform(src, target, asset) == "../" + ".tmp/style.css"
  {
    NestedUnderSrc(src, target, asset, "/", "pages/about.html", ".tmp/style.css");
  }

  /** A page two directories down still gets a single "../". */
  lemma {:induction false} DoublyNestedPage(src: string, target: string, asset: string)
    requires src == "./src/" && target == "/src/pages/blog/post.html" && asset == "/src/.tmp/style.css"
    ensures Transform(src, target, asset) == "../" + ".tmp/style.css"
  {
    NestedUnderSrc(src, target, asset, "/", "pages/blog/post.html", ".tmp/style.css");
  }

  /** A project kept in "/home/u/mysrc/site": the root "src/" is first found
      inside "mysrc", so even the top-level page "index.html" gets a "../". */
  lemma {:induction false} EnclosingSrcDirectory(src: string, target: string, asset: string)
    requires src == "./src/" && target == "/home/u/mysrc/site/src/index.html"
    requires asset == "/src/.tmp/app.js"
    ensures Transform(src, target, asset) == "../" + ".tmp/app.js"
  {
    NestedUnderSrc(src, target, asset, "/home/u/my", "site/src/index.html", ".tmp/app.js");
  }

  /** "style.css" has no '/' after its first character. */
  lemma {:induction false} AssetWithoutSlash(asset: string)
    requires asset == "style.css"
    ensures StripLeadingSegment(asset) == "tyle.css"
  {
    StripWithoutSlash(asset);
  }

  /** When the root does not occur in the target, the target path is the
      target cut after `|root| - 1` characters; if what is left still holds a
      '/', an asset "/src/" + `stripped` is referenced with a "../" whatever
      the depth of the page. */
  lemma {:induction false} MissingRootUnderSrc(src: string, target: string, asset: string, root: string, stripped: string)
    requires 2 <= |src| && src[2..] == root && 1 <= |root| <= |target| + 1
    requires !Occurs(target, root)
    requires '/' in target[|root| - 1..]
    requires asset == "/src/" + stripped
    ensures Transform(src, target, asset) == "../" + stripped
  {
    assert Root(src) == root;
    assert asset[..5] == "/src/" && asset[5..] == stripped;
    StripUnderSrc(asset);
  }

  /** With `config.src` of at most two characters the root is empty, so a
      target path that begins with '/' always earns a "../". */
  lemma {:induction false} EmptyRootUnderSrc(src: string, target: string, asset: string, stripped: string)
    requires |src| <= 2
    requires 1 <= |target| && target[0] == '/'
    requires asset == "/src/" + stripped
    ensures Transform(src, target, asset) == "../" + stripped
  {
    EmptyRootKeepsTarget(src, target);
    assert asset[..5] == "/src/" && asset[5..] == stripped;
    StripUnderSrc(asset);
  }

  /** "app/" does not occur in "/src/index.html". */
  lemma {:induction false} AppAbsent(target: string)
    requires target == "/src/index.html"
    ensures !Occurs(target, "app/")
  {
    forall i | 0 <= i <= |target|
      ensures !OccursAt(target, "app/", i)
    {
      assert i + 4 <= |target| ==> target[i..i + 4][0] == target[i];
    }
  }

  /** A root of "app/" that is missing from "/src/index.html" leaves the
      target path "c/index.html", whose '/' gives a page at the top level a
      "../". */
  lemma {:induction false} RootNotFound(src: string, target: string, asset: string)
    requires src == "./app/" && target == "/src/index.html" && asset == "/src/.tmp/app.js"
    ensures Transform(src, target, asset) == "../" + ".tmp/app.js"
  {
    AppAbsent(target);
    assert target[3..][1] == '/';
    MissingRootUnderSrc(src, target, asset, "app/", ".tmp/app.js");
  }

  /** With `config.src` equal to "./" the leading '/' of the target earns a
      "../" even at the top level. */
  lemma {:induction false} EmptyRoot(src: string, target: string, asset: string)
    requires src == "./" && target == "/index.html" && asset == "/src/.tmp/style.css"
    ensures Transform(src, target, asset) == "../" + ".tmp/style.css"
  {
    EmptyRootUnderSrc(src, target, asset, ".tmp/style.css");
  }

  /** An asset path "/" + `dir` + "/" + `rest`, with no '/' in `dir`, loses
      exactly its first directory. */
  lemma {:induction false} StripFirstSegment(asset: string, dir: string, rest: string)
    requires '/' !in dir
    requires asset == "/" + dir + "/" + rest
    ensures StripLeadingSegment(asset) == rest
  {
    forall k | 1 <= k < |dir| + 1
      ensures asset[k] != '/'
    {
      assert asset[k] == dir[k - 1];
    }
    assert FirstSlashAfterHead(asset, |dir| + 1);
    assert asset[|dir| + 2..] == rest;
  }

  /** Only the leading "/tmp" of an asset built under "/tmp/.build" is
      stripped. */
  lemma {:induction false} BuildAssetStripped(asset: string)
    requires asset == "/tmp/.build/css/style.css"
    ensures StripLeadingSegment(asset) == ".build/css/style.css"
  {
    StripFirstSegment(asset, "tmp", ".build/css/style.css");
  }

  /** A source directory written as an absolute path "/" + `name` + "/",
      where `name` neither has a '/' second nor ends in one: the first two
      characters are dropped regardless, so the root is `name` without its
      first character, first found at index 2 of a target
      "/" + `name` + "/" + `page`. For a page at the top level, the reference
      to an asset "/" + `dir` + "/" + `rest` is `rest`: only the first
      segment of the asset path is removed. */
  lemma {:induction false} AbsoluteSourceTopLevel(src: string, target: string, asset: string, name: string, page: string, dir: string, rest: string)
    requires 2 <= |name| && name[1] != '/' && name[|name| - 1] != '/'
    requires src == "/" + name + "/" && target == src + page && '/' !in page
    requires '/' !in dir && asset == "/" + dir + "/" + rest
    ensures Transform(src, target, asset) == rest
  {
    var root := name[1..] + "/";
    assert Root(src) == root;
    assert target[2..|name| + 2] == root;
    assert !OccursAt(target, root, 0) by {
      assert target[0] == '/' && root[0] == name[1];
      assert |root| <= |target| ==> target[0..|root|][0] == target[0];
    }
    assert !OccursAt(target, root, 1) by {
      assert target[|name|] == name[|name| - 1] != '/';
      assert |root| + 1 <= |target| ==> target[1..|root| + 1][|name| - 1] == target[|name|];
    }
    assert FirstOccurrence(target, root, 2);
    assert target[|name| + 2..] == page;
    StripFirstSegment(asset, dir, rest);
  }

  /** The temporary folder ".build" stays in the reference when the build
      writes its assets under "/tmp/.build" and `config.src` is
      "/project/src/". */
  lemma {:induction false} AbsoluteSourceDirectory(src: string, target: string, asset: string)
    requires src == "/project/src/" && target == "/project/src/index.html"
    requires asset == "/tmp/.build/css/style.css"
    ensures Transform(src, target, asset) == ".build/css/style.css"
  {
    AbsoluteSourceTopLevel(src, target, asset, "project/src", "index.html", "tmp", ".build/css/style.css");
  }
}
