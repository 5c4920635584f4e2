# Path rewriting in the gulp build of a static front-end project

This project models the only pieces of the project's build script
(gulp/build.js) that compute something themselves rather than hand their
inputs to a plugin:

- the `transform` callback of the `build:inject` task, which rewrites the path
  of a generated stylesheet or script before a reference to it is injected
  into an HTML page;
- the loop of the `build:copy` task that prefixes every `config.copyfiles`
  entry with `config.src`;
- the list of image folders built by the `build:images` task from three
  optional configuration entries.

Configuration values (`config.src`, `config.copyfiles`, `config.folder.*`)
are parameters. The callback is modelled as the function
`InjectTransform.Transform(src, target, asset)`: it reads nothing but
`config.src`, the target file's path and the asset path (the other callback
arguments are only passed on to the plugin), so it is pure by construction.

Modules:

- `JsString` (js_string.dfy): JavaScript's one-argument `slice` (a negative
  start counts back from the end and clamps at 0, a start past the end gives
  the empty string) and `indexOf` (first index, -1 when absent, 0 for an empty
  needle), over strings as sequences of characters (see the `JsString.Slice`
  line under "## Left out").
- `InjectTransform` (inject_transform.dfy): the four steps of the callback —
  `root`, `targetpath`, the stripped `filepath`, and the optional `../`
  (`Relativize`, a function of the target path and the stripped path).
- `PathResolution` (path_resolution.dfy): an independent reference for what a
  reference means — resolve it against the directories holding the target
  page, each leading `../` climbing one level — and the lemmas relating the
  reference written for a target path to it: the reference lands on the
  stripped asset path when the page is at most one directory deep, and misses
  it when the page is deeper.
- `InjectExamples` (inject_examples.dfy): the transform for every input of a
  given shape — the layout the script expects (`config.src` of `./src/`,
  assets under `./src/.tmp`), the root missing from the target path, an empty
  root, an asset path without a `/` after its first character, and a source
  directory written as an absolute path — each followed by one concrete
  instance.
- `CopyTask` (copy_task.dfy) and `ImageTask` (image_task.dfy).

The callback removes only the text up to the first `/` after index 0 of the
asset path, so `/tmp/.build/css/style.css` becomes `.build/css/style.css`
(`InjectExamples.AbsoluteSourceDirectory`). It drops the first two characters
of `config.src` whatever they are, and when the root does not occur in the
target path it cuts that path at `|root| - 1`
(`InjectExamples.RootNotFound`).

## Model

| member | source | states |
|---|---|---|
| JsString.Slice | gulp/build.js:194-197 | `s.slice(n)` is a suffix of `s`; it is `s[n..]` for `0 <= n <= |s|`, empty past the end, counts back from the end for a negative `n`, and is all of `s` below `-|s|` |
| JsString.IndexOf | gulp/build.js:195-199 | `s.indexOf(t)` is the first index at which `t` occurs, -1 exactly when `t` does not occur, and 0 for an empty `t` |
| JsString.IndexOfChar | gulp/build.js:197-199 | for a one-character needle, `indexOf` is -1 exactly when the character is absent, and otherwise the index of its first appearance |
| InjectTransform.Root | gulp/build.js:194 | `root` is `config.src` without its first two characters, or empty when `config.src` is shorter than two |
| InjectTransform.TargetPath | gulp/build.js:195 | `targetpath` is a suffix of the target path: the text after the first occurrence of `root`; the whole path when `root` is empty; the path sliced at `|root| - 1` when `root` does not occur |
| InjectTransform.StripLeadingSegment | gulp/build.js:197 | the rewritten asset path is a suffix of the original, strictly shorter when the original is non-empty; it is the text after the first `/` at index 1 or later, or the path minus its first character when there is no such `/` |
| InjectTransform.Relativize | gulp/build.js:199-201 | the reference is `"../"` + the stripped path when the target path contains a `/`, and the stripped path unchanged otherwise |
| InjectTransform.Transform | gulp/build.js:192-201 | the callback's result is `"../"` + the stripped asset path when `targetpath` contains a `/`, and the stripped path unchanged otherwise |
| InjectTransform.OneParentStepAtAnyDepth | gulp/build.js:199-201 | at most one `../` is added: every target path holding a `/`, however many, gets the same reference, the stripped path behind a single `../` |
| PathResolution.ReferenceResolvesOneLevelUp | gulp/build.js:199-201 | resolved from the target page's directory, the reference lands on the stripped asset path under the parent of that directory, for a stripped path that does not itself begin with `../` |
| PathResolution.RoundTripUpToOneLevel | gulp/build.js:199-201 | for a page at the top of the source directory or one level below, the reference resolves to exactly the stripped asset path, for a stripped path that does not itself begin with `../` |
| PathResolution.DeeperTargetsMissTheAsset | gulp/build.js:199-201 | for a page two or more levels deep, the reference resolves somewhere other than the stripped asset path, for a stripped path that does not itself begin with `../` |
| InjectExamples.StripUnderSrc | gulp/build.js:197 | any asset path beginning with `/src/` loses exactly that segment |
| InjectExamples.StripWithoutSlash | gulp/build.js:197 | any non-empty asset path with no `/` after index 0 loses only its first character |
| InjectExamples.StripFirstSegment | gulp/build.js:197 | an asset path `/` + dir + `/` + rest, with no `/` in dir, becomes rest, whatever rest holds |
| InjectExamples.UnderSrcTargetPath | gulp/build.js:194-195 | when `config.src` is exactly `src/` after its first two characters, a target path `base` + `src/` + tp in which `src/` does not start inside `base` has `targetpath` tp |
| InjectExamples.RootNotInBase | gulp/build.js:195 | `src/` cannot start inside a `base` that holds no `s` |
| InjectExamples.EmptyRootKeepsTarget | gulp/build.js:194-195 | with `config.src` of at most two characters, `targetpath` is the whole target path |
| InjectExamples.TopLevelUnderSrc | gulp/build.js:192-201 | with that root, every page directly in the source directory of a project under any `base` without an `s` refers to an asset `/src/` + p as p |
| InjectExamples.NestedUnderSrc | gulp/build.js:192-201 | with that root, every page whose path after the first `src/` holds a `/` — in a sub-directory at any depth, or below a directory above the project whose name ends in `src` — refers to an asset `/src/` + p as `../` + p |
| InjectExamples.MissingRootUnderSrc | gulp/build.js:194-201 | when the root does not occur in the target and the target cut at `|root| - 1` still holds a `/`, an asset `/src/` + p is referenced as `../` + p |
| InjectExamples.EmptyRootUnderSrc | gulp/build.js:194-201 | with an empty root, any target beginning with `/` gives an asset `/src/` + p the reference `../` + p |
| InjectExamples.AbsoluteSourceTopLevel | gulp/build.js:194-201 | with `config.src` written as an absolute path `/name/`, the root is found at index 2 of a target `/name/` + page; for a top-level page an asset `/` + dir + `/` + rest is referenced as rest |
| InjectExamples.TopLevelPage | gulp/build.js:192-201 | with `config.src` of `./src/`, `/src/.tmp/style.css` injected into `/src/index.html` is referenced as `.tmp/style.css` |
| InjectExamples.NestedPage | gulp/build.js:192-201 | the same asset injected into `/src/pages/about.html` is referenced as `../.tmp/style.css` |
| InjectExamples.DoublyNestedPage | gulp/build.js:192-201 | injected into `/src/pages/blog/post.html` it is still referenced with a single `../` |
| InjectExamples.EnclosingSrcDirectory | gulp/build.js:192-201 | for a project in `/home/u/mysrc/site`, the root is first found inside `mysrc`, so the top-level page `index.html` still gets a `../` |
| InjectExamples.AssetWithoutSlash | gulp/build.js:197 | an asset path with no `/` after index 0 (`style.css`) only loses its first character |
| InjectExamples.RootNotFound | gulp/build.js:194-201 | when the root (`app/`) does not occur in the target path `/src/index.html`, the target path is cut after `|root| - 1` characters and the top-level page still gets a `../` |
| InjectExamples.EmptyRoot | gulp/build.js:194-201 | with `config.src` of `./` the root is empty, the whole target path is kept, and its leading `/` earns a `../` |
| InjectExamples.BuildAssetStripped | gulp/build.js:197 | `/tmp/.build/css/style.css` loses only `/tmp/` |
| InjectExamples.AbsoluteSourceDirectory | gulp/build.js:194-201 | with `config.src` of `/project/src/`, only the first segment of the asset path is stripped, so `/tmp/.build/css/style.css` injected into `/project/src/index.html` becomes `.build/css/style.css` |
| CopyTask.PrefixCopyFiles | gulp/build.js:53-55 | after the loop the list has the same length and order, and entry `i` is `config.src` + the old entry `i` |
| CopyTask.Run | gulp/build.js:51-61 | an empty list is skipped; otherwise the prefixed list is what gets copied |
| CopyTask.PrefixTwice | gulp/build.js:53-55 | running the loop twice prefixes every entry with `config.src` twice |
| CopyTask.PrefixNotIdempotent | gulp/build.js:53-55 | with a non-empty `config.src` and a non-empty list, a second run changes the list |
| ImageTask.ImageFolders | gulp/build.js:93-97 | the folder list is exactly the truthy entries among `icons`, `images`, `pictures`, in that order; it has at most three names, three exactly when all are set, none exactly when none is, and no empty name |
| ImageTask.ConfiguredMembers | gulp/build.js:93-97 | a name is in the list exactly when some entry is set to it and it is not the empty string |
| ImageTask.ConfiguredAppend | gulp/build.js:93-97 | the list keeps the entries' order: the list of `a + b` is the list of `a` followed by the list of `b` |
| ImageTask.ConfiguredLength | gulp/build.js:93-97 | the list is never longer than the entries, and as long exactly when every entry is truthy |
| ImageTask.ConfiguredNonEmpty | gulp/build.js:93-97 | no listed folder name is the empty string |

## Left out

- Task registration and the dependency lists of every `gulp.task` call: they are declarations run by gulp, not logic of this script.
- The call to `$.inject.transform` (gulp/build.js:203), which turns the rewritten path into a tag: it is plugin code. The model stops at the path passed to it.
- Every other plugin pipe (sass, babel, imagemin, useref, rev, uglify, csso, autoprefixer, removeCode, replace, htmlmin, notify, size, rimraf, copy), `gulp.src`/`gulp.dest` streaming, `fs.existsSync` and browser-sync: foreign code or I/O.
- The per-folder image pipeline (gulp/build.js:99-115) and the source globs of `build:inject` (gulp/build.js:186-189): string concatenation fed straight into plugins.
- The `config` module: it is not part of this model; its values are parameters.
- JsString.Slice: strings are sequences of characters, while JavaScript counts UTF-16 code units, where a character outside the Basic Multilingual Plane counts twice. The two views give different results only at three fixed offsets: `config.src.slice(2)` (gulp/build.js:194) when the first two code units of `config.src` are not two characters inside that plane; the cut at `|root| - 1` (gulp/build.js:195) when the root is missing from the target path and holds a character outside it; and `filepath.slice(1)` (gulp/build.js:197) for an asset path that has no `/` after a first character outside that plane, where JavaScript keeps a lone low surrogate and the model drops the whole character. Every other `indexOf` + `length` + `slice` step at gulp/build.js:195 and 197 measures the same string it slices, so it agrees in either unit.
- CopyTask.PrefixCopyFiles: the source mutates the shared `config.copyfiles` array in place; the model returns the new contents as a value, and it takes entries to be strings (JavaScript would coerce other values when concatenating).
- ImageTask.ImageFolders: configuration entries are either missing or strings; other JavaScript values (numbers, objects) and their truthiness are not modelled.
