/**
 The folder list of the `build:images` task (gulp/build.js): the entries
 `config.folder.icons`, `config.folder.images` and `config.folder.pictures`
 that are set, in that order.
 */
module ImageTask {

  /** A folder entry of the configuration: missing, or a string. */
  datatype Setting = Unset | Set(name: string)

  /** JavaScript truthiness of an entry: missing and "" are both false. */
  predicate Truthy(s: Setting) {
    s.Set? && s.name != []
  }

  /** The names of the truthy entries, in order: the reference definition. */
  function Configured(entries: seq<Setting>): seq<string> {
    if entries == [] then []
    else (if Truthy(entries[0]) then [entries[0].name] else []) + Configured(entries[1..])
  }

  /** gulp/build.js:93-97: start from an empty list and push each truthy
      entry in turn. */
  function ImageFolders(icons: Setting, images: Setting, pictures: Setting): (path: seq<string>)
    ensures path == Configured([icons, images, pictures])
    ensures |path| <= 3
    ensures |path| == 3 <==> Truthy(icons) && Truthy(images) && Truthy(pictures)
    ensures path == [] <==> !Truthy(icons) && !Truthy(images) && !Truthy(pictures)
    ensures forall k :: 0 <= k < |path| ==> path[k] != []
  {
    var path := [];
    var path := if Truthy(icons) then path + [icons.name] else path;
    var path := if Truthy(images) then path + [images.name] else path;
    var path := if Truthy(pictures) then path + [pictures.name] else path;
    ConfiguredNonEmpty([icons, images, pictures]);
    assert [pictures][1..] == [];
    assert [images, pictures][1..] == [pictures];
    assert [icons, images, pictures][1..] == [images, pictures];
    assert Configured([pictures]) == if Truthy(pictures) then [pictures.name] else [];
    assert Configured([images, pictures]) == (if Truthy(images) then [images.name] else []) + Configured([pictures]);
    path
  }

  /** No more names than entries. */
  lemma {:induction false} ConfiguredLength(entries: seq<Setting>)
    ensures |Configured(entries)| <= |entries|
    ensures |Configured(entries)| == |entries| <==> forall i :: 0 <= i < |entries| ==> Truthy(entries[i])
  {
    if entries != [] {
      ConfiguredLength(entries[1..]);
      assert forall i :: 1 <= i < |entries| ==> entries[1..][i - 1] == entries[i];
    }
  }

  /** Every name listed is a non-empty string. */
  lemma {:induction false} ConfiguredNonEmpty(entries: seq<Setting>)
    ensures forall k :: 0 <= k < |Configured(entries)| ==> Configured(entries)[k] != []
  {
    if entries != [] {
      ConfiguredNonEmpty(entries[1..]);
    }
  }

  /** A name is listed exactly when some entry is set to it and it is not
      the empty string. */
  lemma {:induction false} ConfiguredMembers(entries: seq<Setting>, x: string)
    ensures x in Configured(entries) <==> x != [] && Set(x) in entries
  {
    if entries != [] {
      ConfiguredMembers(entries[1..], x);
      assert entries == [entries[0]] + entries[1..];
    }
  }

  /** The list keeps the order of the entries: filtering distributes over
      concatenation. */
  lemma {:induction false} ConfiguredAppend(a: seq<Setting>, b: seq<Setting>)
    ensures Configured(a + b) == Configured(a) + Configured(b)
  {
    if a != [] {
      ConfiguredAppend(a[1..], b);
      assert (a + b)[1..] == a[1..] + b;
    } else {
      assert a + b == b;
    }
  }
}
