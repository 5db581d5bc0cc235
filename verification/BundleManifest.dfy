/** Verification of an unpacked bundle against its manifest. */
module BundleManifest {
  import opened Basics
  import opened StrictOrder

  datatype File = File(path: string, size: int, mode: nat, digest: string)

  datatype Manifest = Manifest(
    schemaVersion: int, name: string, os: string, arch: string, sourceCommit: string, sourceDateEpoch: int,
    runtimeNodePath: string, systemdUnitPath: string, files: seq<File>)

  /** What is under a path that is not a directory; `readable` says that inspecting and reading it succeed. */
  datatype Node = Node(regular: bool, links: nat, mode: nat, content: seq<nat>, readable: bool)

  type Tree = map<string, Node>

  // ---------------------------------------------------------------- paths and digests

  function Split(s: string, separator: char): seq<string>
  {
    if s == "" then [""]
    else
      var parts := Split(s[1..], separator);
      if s[0] == separator then [""] + parts
      else if parts == [] then [[s[0]]] else [[s[0]] + parts[0]] + parts[1..]
  }

  predicate SafePath(value: string)
  {
    && value != "" && value[0] != '/' && '\\' !in value && '\0' !in value
    && forall i :: 0 <= i < |Split(value, '/')| ==>
      Split(value, '/')[i] != "" && Split(value, '/')[i] != "." && Split(value, '/')[i] != ".."
  }

  // ---------------------------------------------------------------- a valid manifest

  predicate ValidHeader(m: Manifest)
  {
    && m.schemaVersion == 1 && m.name == "atlas-manager" && m.os == "linux" && m.arch == "amd64"
    && LowerHex(m.sourceCommit, 40)
    && m.sourceDateEpoch >= 0 && m.runtimeNodePath == "/usr/bin/node"
    && m.systemdUnitPath == "/etc/systemd/system/atlas-manager.service"
  }

  predicate ValidFile(f: File)
  {
    SafePath(f.path) && f.size >= 0 && LowerHex(f.digest, 64)
  }

  function Paths(files: seq<File>): (r: seq<string>)
    ensures |r| == |files| && forall i :: 0 <= i < |files| ==> r[i] == files[i].path
  {
    seq(|files|, i requires 0 <= i < |files| => files[i].path)
  }

  predicate ValidManifest(m: Manifest)
  {
    ValidHeader(m) && (forall i :: 0 <= i < |m.files| ==> ValidFile(m.files[i])) && Increasing(Paths(m.files))
  }

  /** Every path comes after the one before it, so the set of paths already seen never has the next one. */
  method Validate(m: Manifest) returns (fault: string)
    ensures fault == "" <==> ValidManifest(m)
  {
    hide SafePath, LowerHex;
    if !ValidHeader(m) {
      return "manifest_contract_invalid";
    }
    ghost var paths := Paths(m.files);
    var seen: set<string>, last := {}, "";
    for i := 0 to |m.files|
      invariant forall j :: 0 <= j < i ==> ValidFile(m.files[j])
      invariant Increasing(paths[..i])
      invariant seen == Elements(paths[..i]) && last == if i == 0 then "" else paths[i - 1]
    {
      var file := m.files[i];
      if !SafePath(file.path) || !Less(last, file.path) {
        OutOfPlace(paths, i, last);
        return "manifest_file_order_invalid";
      }
      ghost var front, next := paths[..i], paths[..i + 1];
      assert next == front + [file.path];
      assert Increasing(next);
      last := file.path;
      if file.path in seen || file.size < 0 || !LowerHex(file.digest, 64) {
        ElementsOfFront(next);
        return "manifest_file_invalid";
      }
      seen := seen + {file.path};
      assert seen == Elements(next);
    }
    assert paths[..|m.files|] == paths;
    return "";
  }

  lemma OutOfPlace(paths: seq<string>, i: nat, last: string)
    requires i < |paths| && last == if i == 0 then "" else paths[i - 1]
    ensures Less(last, paths[i]) || paths[i] == "" || !Increasing(paths)
    ensures SafePath("") == false
  {
    if i > 0 && Increasing(paths) {
      assert Less(paths[i - 1], paths[i]);
    }
  }

  // ---------------------------------------------------------------- the tree

  const METADATA: set<string> := {"MANIFEST.json", "SHA256SUMS"}

  /** `walk` lists the tree's files, each once, in any order. */
  ghost predicate Lists(walk: seq<string>, tree: Tree)
  {
    NoRepeats(walk) && Elements(walk) == tree.Keys
  }

  /** A regular file with one link whose size, mode and digest are the manifest's. */
  predicate SameFile(sha: seq<nat> -> string, n: Node, f: File)
  {
    && n.regular && n.links == 1 && n.readable
    && f.size == |n.content| && f.mode == n.mode && f.digest == sha(n.content)
  }

  /** The tree without the two metadata files is exactly what the manifest lists. */
  predicate Matches(sha: seq<nat> -> string, tree: Tree, m: Manifest)
  {
    && tree.Keys - METADATA == Elements(Paths(m.files))
    && forall i :: 0 <= i < |m.files| ==> m.files[i].path in tree && SameFile(sha, tree[m.files[i].path], m.files[i])
  }

  function Described(sha: seq<nat> -> string, path: string, n: Node): File
  {
    File(path, |n.content|, n.mode, sha(n.content))
  }

  predicate Acceptable(n: Node)
  {
    n.regular && n.links == 1 && n.readable
  }

  predicate Takeable(tree: Tree, path: string)
  {
    SafePath(path) && path in tree && Acceptable(tree[path])
  }

  ghost predicate AllTakeable(tree: Tree, paths: seq<string>)
  {
    forall i :: 0 <= i < |paths| ==> Takeable(tree, paths[i])
  }

  ghost function InventoryOf(sha: seq<nat> -> string, tree: Tree, paths: seq<string>): (files: seq<File>)
    requires AllTakeable(tree, paths)
    ensures |files| == |paths|
    ensures forall i :: 0 <= i < |paths| ==>
      Takeable(tree, paths[i]) && files[i] == Described(sha, paths[i], tree[paths[i]])
  {
    seq(|paths|, i requires 0 <= i < |paths| =>
      assert Takeable(tree, paths[i]);
      Described(sha, paths[i], tree[paths[i]]))
  }

  method DescribeAll(sha: seq<nat> -> string, tree: Tree, paths: seq<string>) returns (files: Option<seq<File>>)
    ensures files.Some? <==> AllTakeable(tree, paths)
    ensures files.Some? ==> files.value == InventoryOf(sha, tree, paths)
  {
    hide SafePath, Acceptable, Described;
    var result: seq<File> := [];
    for i := 0 to |paths|
      invariant |result| == i
      invariant forall j :: 0 <= j < i ==>
        Takeable(tree, paths[j]) && result[j] == Described(sha, paths[j], tree[paths[j]])
    {
      var path := paths[i];
      if !Takeable(tree, path) {
        return None;
      }
      result := result + [Described(sha, path, tree[path])];
    }
    assert AllTakeable(tree, paths);
    return Some(result);
  }

  lemma TakeableInAnyOrder(tree: Tree, given: seq<string>)
    ensures AllTakeable(tree, SortStrings(given)) <==> AllTakeable(tree, given)
  {
    hide SortStrings, Takeable;
    var sorted := SortStrings(given);
    forall x ensures x in sorted <==> x in given {
      assert x in multiset(sorted) <==> x in multiset(given);
    }
    if AllTakeable(tree, given) {
      forall i | 0 <= i < |sorted| ensures Takeable(tree, sorted[i]) {
        assert sorted[i] in given;
      }
    }
    if AllTakeable(tree, sorted) {
      forall i | 0 <= i < |given| ensures Takeable(tree, given[i]) {
        assert given[i] in sorted;
      }
    }
  }

  /** `Inventory`: sorts the paths it is given and describes the file under each. */
  method Inventory(sha: seq<nat> -> string, tree: Tree, given: seq<string>) returns (files: Option<seq<File>>)
    ensures files.Some? <==> AllTakeable(tree, given)
    ensures files.Some? ==>
      AllTakeable(tree, SortStrings(given)) && files.value == InventoryOf(sha, tree, SortStrings(given))
  {
    hide SortStrings, InventoryOf;
    TakeableInAnyOrder(tree, given);
    files := DescribeAll(sha, tree, SortStrings(given));
  }

  function WithoutMetadata(paths: seq<string>): (r: seq<string>)
    ensures forall x :: x in r <==> x in paths && x !in METADATA
  {
    if paths == [] then []
    else
      assert paths == paths[..|paths| - 1] + [paths[|paths| - 1]];
      WithoutMetadata(paths[..|paths| - 1]) + if paths[|paths| - 1] in METADATA then [] else [paths[|paths| - 1]]
  }

  lemma {:induction false} WithoutMetadataIncreasing(paths: seq<string>)
    requires Increasing(paths)
    ensures Increasing(WithoutMetadata(paths))
  {
    if paths != [] {
      var front, last := paths[..|paths| - 1], paths[|paths| - 1];
      ElementsOfFront(paths);
      WithoutMetadataIncreasing(front);
      var kept := WithoutMetadata(front);
      if last !in METADATA && kept != [] {
        assert kept[|kept| - 1] in front && kept[|kept| - 1] in Elements(front);
        LastIsGreatest(paths, kept[|kept| - 1]);
      }
    }
  }

  /** `sameStrings`. */
  method SameStrings(left: seq<string>, right: seq<string>) returns (same: bool)
    ensures same <==> left == right
  {
    if |left| != |right| {
      return false;
    }
    for i := 0 to |left|
      invariant forall j :: 0 <= j < i ==> left[j] == right[j]
    {
      if left[i] != right[i] {
        return false;
      }
    }
    return true;
  }

  /**
   Verification succeeds exactly when the manifest is valid and the tree is what it lists.
   `walk` is absent when walking the tree failed.
   */
  method Verify(sha: seq<nat> -> string, tree: Tree, walk: Option<seq<string>>, m: Manifest) returns (fault: string)
    requires walk.Some? ==> Lists(walk.value, tree)
    ensures fault == "" <==> walk.Some? && ValidManifest(m) && Matches(sha, tree, m)
  {
    hide Matches, SortStrings, WithoutMetadata, METADATA, AllTakeable, InventoryOf;
    hide ValidFile, ValidHeader, Lists, Elements;
    fault := Validate(m);
    if fault != "" {
      return;
    }
    if walk.None? {
      return "manifest_walk_failed";
    }
    var all := SortStrings(walk.value);
    var paths := WithoutMetadata(all);
    var expected := SortStrings(Paths(m.files));
    SortingSortedIsIdentity(Paths(m.files));
    PayloadPaths(tree, walk.value, Paths(m.files));
    MatchesByInventory(sha, tree, m);
    var same := SameStrings(paths, expected);
    if !same {
      return "manifest_file_set_invalid";
    }
    SortingSortedIsIdentity(paths);
    var actual := Inventory(sha, tree, paths);
    if actual.None? {
      return "manifest_file_type_invalid";
    }
    assert |actual.value| == |m.files|;
    for i := 0 to |actual.value|
      invariant forall j :: 0 <= j < i ==> actual.value[j] == m.files[j]
    {
      if actual.value[i] != m.files[i] {
        return "manifest_file_mismatch";
      }
    }
    assert actual.value == m.files;
    return "";
  }

  /** The manifest's description of the tree, stated through the inventory of its paths. */
  lemma MatchesByInventory(sha: seq<nat> -> string, tree: Tree, m: Manifest)
    requires ValidManifest(m)
    ensures Matches(sha, tree, m) <==>
      && tree.Keys - METADATA == Elements(Paths(m.files))
      && AllTakeable(tree, Paths(m.files))
      && InventoryOf(sha, tree, Paths(m.files)) == m.files
    ensures AllTakeable(tree, Paths(m.files)) ==> |InventoryOf(sha, tree, Paths(m.files))| == |m.files|
  {
    hide SafePath, LowerHex, ValidHeader, METADATA, Increasing, Elements;
    var paths := Paths(m.files);
    if AllTakeable(tree, paths) {
      var found := InventoryOf(sha, tree, paths);
      forall i | 0 <= i < |m.files| ensures found[i] == m.files[i] <==> SameFile(sha, tree[paths[i]], m.files[i]) {
        assert Takeable(tree, paths[i]);
      }
    } else {
      var i :| 0 <= i < |paths| && !Takeable(tree, paths[i]);
      assert ValidFile(m.files[i]);
      assert !(m.files[i].path in tree && SameFile(sha, tree[m.files[i].path], m.files[i]));
    }
  }

  /** The sorted listing without metadata equals a strictly sorted list exactly when the file sets agree. */
  lemma PayloadPaths(tree: Tree, walk: seq<string>, expected: seq<string>)
    requires Lists(walk, tree) && Increasing(expected)
    ensures Increasing(WithoutMetadata(SortStrings(walk)))
    ensures WithoutMetadata(SortStrings(walk)) == expected <==> tree.Keys - METADATA == Elements(expected)
  {
    hide Increasing, Less;
    SortedIsIncreasing(walk);
    var all := SortStrings(walk);
    WithoutMetadataIncreasing(all);
    var paths := WithoutMetadata(all);
    forall x ensures x in paths <==> x in tree.Keys - METADATA {
      assert x in all <==> x in Elements(all);
    }
    assert Elements(paths) == tree.Keys - METADATA;
    if Elements(paths) == Elements(expected) {
      SameElementsSameList(paths, expected);
    }
  }
}
