/**
 `jobs/keys.py`: what a job's configuration contributes to its stage keys. Paths in the configuration are replaced
 by the bytes behind them, through ONNX external data and JSON manifests, over a file graph that may be cyclic.
 */
module ContentIdentity {
  import opened Common
  import Text

  type Bytes = seq<bv8>
  type Path = seq<string>                           // absolute, one component each

  /** A configuration or JSON value. Mappings list their fields in key order. */
  datatype Value =
    | Literal(text: string)                         // null, booleans and numbers
    | Str(text: string)
    | PathLike(text: string)
    | Mapping(fields: Fields)
    | List(items: Items)

  datatype Fields = NoFields | Field(key: string, value: Value, rest: Fields)

  datatype Items = NoItems | Item(value: Value, rest: Items)

  /** A directory below some path: its files, then its subdirectories, each in name order. */
  datatype Tree = Tree(files: seq<Leaf>, dirs: Forest)

  datatype Leaf = Plain(name: string, bytes: Bytes) | Link(name: string, target: string) | Special(name: string)

  datatype Forest = NoMore | Sub(name: string, tree: Tree, rest: Forest)

  datatype Node = File(bytes: Bytes) | Directory(tree: Tree) | Device

  type FileSystem = map<Path, Node>

  /** The foreign parts: hashes, parsers and path resolution, all arbitrary functions. */
  datatype Env = Env(
    sha: Bytes -> string,
    digest: seq<Entry> -> string,
    json: Bytes -> Option<Value>,
    external: (Path, Bytes) -> Option<seq<Path>>,
    resolve: (string, Option<Path>) -> Option<Path>,
    lower: string -> string,
    parsesAsHex: string -> bool)

  /** A line of a directory's identity. */
  datatype Entry = FileEntry(relative: string, sha: string, size: nat) | LinkEntry(relative: string, target: string)

  datatype Ident =
    | SameLiteral(text: string)
    | SameText(text: string)
    | OutputOnly(path: Path)
    | MissingPath(path: Path)
    | Cycle(path: Path)
    | SdkDirectory(path: Path)
    | DirectoryOf(path: Path, sha: string, count: nat, size: nat)
    | FileOf(path: Path, sha: string, size: nat, external: Option<seq<Ident>>, referenced: Option<Ident>)
    | MappingOf(fields: seq<(string, Ident)>)
    | ListOf(items: seq<Ident>)

  datatype Failure =
    | NotFound(path: Path) | HashMismatch(path: Path) | BadOnnx(path: Path) | BadJson(path: Path) | Unresolvable(text: string)

  // --------------------------------------------------------- field names

  const OUTPUT_ONLY_FIELDS := {
    "artifact_root", "cache_dir", "destination", "jobs_root", "output_dir", "output_dlc", "output_file", "output_path",
    "output_root", "report_path", "work_dir", "workdir"}

  const SDK_FIELDS := {"qairt_root", "qairt_sdk_root", "qnn_root", "qnn_sdk_root", "sdk_dir", "sdk_path", "sdk_root"}

  const PATH_FIELDS := {
    "actual_manifest", "actual_trace", "aimet_config_path", "baseline_trace", "calibration_manifest", "config_path",
    "context_path", "encodings_path", "model_path", "onnx_path", "path", "reference_manifest", "reference_trace",
    "tokenizer_path", "validation_manifest", "vector_manifest"}

  const IGNORED_DIRECTORIES := {".git", ".mypy_cache", ".pytest_cache", "__pycache__"}

  const CONFIG_SUFFIXES := {".json", ".model", ".textproto", ".tiktoken", ".toml", ".txt", ".yaml", ".yml"}

  const CONFIG_ONLY_FIELDS := {"config_path", "tokenizer_path", "aimet_config_path"}

  function FieldName(env: Env, key: seq<string>): string {
    if key == [] then "" else env.lower(key[|key| - 1])
  }

  predicate IsOutputField(env: Env, key: seq<string>) {
    FieldName(env, key) in OUTPUT_ONLY_FIELDS
  }

  predicate IsSdkField(env: Env, key: seq<string>) {
    FieldName(env, key) in SDK_FIELDS || Text.HasSuffix(FieldName(env, key), "_sdk_root")
  }

  predicate IsPathField(env: Env, key: seq<string>) {
    var field := FieldName(env, key);
    field in PATH_FIELDS || Text.HasSuffix(field, "_file") || Text.HasSuffix(field, "_manifest")
    || Text.HasSuffix(field, "_path") || Text.HasSuffix(field, "_trace")
  }

  /** The extension of a file name: from its last dot, unless that is its first or last character. */
  function Suffix(name: string): string {
    SuffixFrom(name, |name|)
  }

  function SuffixFrom(name: string, i: nat): string
    requires i <= |name|
  {
    if i == 0 then ""
    else if name[i - 1] == '.' then if 1 < i < |name| then name[i - 1..] else ""
    else SuffixFrom(name, i - 1)
  }

  predicate Contains(s: string, part: string) {
    Text.HasPrefix(s, part) || (s != "" && Contains(s[1..], part))
  }

  predicate IsManifestPath(env: Env, path: Path, key: seq<string>) {
    Contains(FieldName(env, key), "manifest") || (path != [] && Contains(env.lower(path[|path| - 1]), ".manifest."))
  }

  predicate IsOnnx(env: Env, path: Path) {
    path != [] && env.lower(Suffix(path[|path| - 1])) == ".onnx"
  }

  function Parent(path: Path): Path {
    if path == [] then [] else path[..|path| - 1]
  }

  function Get(fields: Fields, key: string): Option<Value> {
    match fields
    case NoFields => None
    case Field(k, v, rest) => if k == key then (if v == Literal("null") then None else Some(v)) else Get(rest, key)
  }

  /** A field goes by the last part of its key; a file lies in its parent directory. */
  lemma LastPartNames(env: Env, key: seq<string>, name: string)
    ensures FieldName(env, key + [name]) == env.lower(name) && FieldName(env, []) == ""
    ensures Parent(key + [name]) == key
  {
  }

  /** The part after the last dot, dot included; a dot that begins or ends the name leaves no extension. */
  lemma {:induction false} SuffixFromMeans(name: string, i: nat)
    requires i <= |name| && forall k :: i <= k < |name| ==> name[k] != '.'
    ensures var suffix := Suffix(name);
            if exists k :: 0 < k < |name| - 1 && LastDot(name, k)
            then exists k :: 0 < k < |name| - 1 && LastDot(name, k) && SuffixFrom(name, i) == name[k..]
            else SuffixFrom(name, i) == ""
    decreases i
  {
    if i > 0 && name[i - 1] != '.' {
      SuffixFromMeans(name, i - 1);
    } else if i > 0 {
      assert LastDot(name, i - 1);
      assert forall k | 0 <= k < |name| && LastDot(name, k) :: k == i - 1;
    }
  }

  predicate LastDot(name: string, k: nat)
    requires k < |name|
  {
    name[k] == '.' && forall j :: k < j < |name| ==> name[j] != '.'
  }

  /** The extension of a name is what its last dot begins, unless that dot is its first or last character. */
  lemma SuffixMeans(name: string, k: nat)
    requires k < |name| && LastDot(name, k)
    ensures Suffix(name) == if 0 < k < |name| - 1 then name[k..] else ""
  {
    SuffixFromMeans(name, |name|);
    assert forall j | 0 <= j < |name| && LastDot(name, j) :: j == k;
  }

  lemma {:induction false} ContainsMeans(s: string, part: string)
    ensures Contains(s, part) <==> exists i: nat :: i <= |s| && Text.HasPrefix(s[i..], part)
  {
    assert s[0..] == s;
    if s != "" {
      var rest := s[1..];
      ContainsMeans(rest, part);
      if i: nat :| i <= |rest| && Text.HasPrefix(rest[i..], part) {
        assert rest[i..] == s[i + 1..];
      }
      if i: nat :| i <= |s| && Text.HasPrefix(s[i..], part) {
        if i > 0 { assert rest[i - 1..] == s[i..]; }
      }
    }
  }

  /** `_expected_sha_for`: the digest a mapping states for one of its fields. */
  function ExpectedSha(env: Env, fields: Fields, key: string): Option<string> {
    var stated :=
      if key == "path" then Get(fields, "sha256")
      else
        var direct := Get(fields, key + "_sha256");
        if direct.None? && Text.HasSuffix(key, "_path") then Get(fields, key[..|key| - 5] + "_sha256") else direct;
    if stated.Some? && stated.value.Str? && |stated.value.text| == 64 && env.parsesAsHex(stated.value.text)
    then Some(env.lower(stated.value.text)) else None
  }

  // --------------------------------------------------------- directories

  /** What the directory walk sees of one entry. */
  datatype Found = FoundFile(relative: string, bytes: Bytes) | FoundLink(relative: string, target: string)

  /** Which directories the walk enters and which file names it lists. */
  datatype Filter = Filter(enters: string -> bool, lists: string -> bool)

  function FilterFor(env: Env, configOnly: bool): Filter {
    Filter((name: string) => name !in IGNORED_DIRECTORIES,
           (name: string) => configOnly ==> env.lower(Suffix(name)) in CONFIG_SUFFIXES)
  }

  /** The line one file contributes, if any. */
  function LeafFound(filter: Filter, leaf: Leaf, prefix: string): seq<Found> {
    if !filter.lists(leaf.name) then []
    else match leaf
      case Plain(name, bytes) => [FoundFile(prefix + name, bytes)]
      case Link(name, target) => [FoundLink(prefix + name, target)]
      case Special(_) => []
  }

  function FilesFound(filter: Filter, files: seq<Leaf>, prefix: string): seq<Found> {
    if files == [] then []
    else FilesFound(filter, files[..|files| - 1], prefix) + LeafFound(filter, files[|files| - 1], prefix)
  }

  /** `os.walk`, top down, with pruned directories left out. */
  function TreeFound(filter: Filter, tree: Tree, prefix: string): seq<Found>
    decreases tree, 1
  {
    FilesFound(filter, tree.files, prefix) + ForestFound(filter, tree.dirs, prefix)
  }

  function ForestFound(filter: Filter, dirs: Forest, prefix: string): seq<Found>
    decreases dirs, 0
  {
    match dirs
    case NoMore => []
    case Sub(name, tree, rest) =>
      (if filter.enters(name) then TreeFound(filter, tree, prefix + name + "/") else [])
      + ForestFound(filter, rest, prefix)
  }

  function EntriesOf(env: Env, found: seq<Found>): (entries: seq<Entry>)
    ensures |entries| == |found|
  {
    if found == [] then []
    else
      var first := match found[0]
        case FoundFile(relative, bytes) => FileEntry(relative, env.sha(bytes), |bytes|)
        case FoundLink(relative, target) => LinkEntry(relative, target);
      [first] + EntriesOf(env, found[1..])
  }

  function TotalSize(entries: seq<Entry>): nat {
    if entries == [] then 0
    else (if entries[0].FileEntry? then entries[0].size else 0) + TotalSize(entries[1..])
  }

  /** The size of a directory is the sum over its files; links count nothing. */
  lemma {:induction false} TotalSizeAdds(a: seq<Entry>, b: seq<Entry>)
    ensures TotalSize(a + b) == TotalSize(a) + TotalSize(b)
    ensures forall relative, sha, size :: TotalSize([FileEntry(relative, sha, size)]) == size
    ensures forall relative, target :: TotalSize([LinkEntry(relative, target)]) == 0
  {
    if a == [] {
      assert a + b == b;
    } else {
      TotalSizeAdds(a[1..], b);
      assert (a + b)[1..] == a[1..] + b;
    }
  }

  predicate HasFile(files: seq<Leaf>, name: string) {
    exists i :: 0 <= i < |files| && files[i].Plain? && files[i].name == name
  }

  function Find(dirs: Forest, name: string): Option<Tree> {
    match dirs
    case NoMore => None
    case Sub(n, tree, rest) => if n == name then Some(tree) else Find(rest, name)
  }

  predicate AnyHasSdkYaml(dirs: Forest) {
    match dirs
    case NoMore => false
    case Sub(_, tree, rest) => HasFile(tree.files, "sdk.yaml") || AnyHasSdkYaml(rest)
  }

  predicate LooksLikeSdk(tree: Tree) {
    HasFile(tree.files, "sdk.yaml")
    || (Find(tree.dirs, "qairt").Some? && AnyHasSdkYaml(Find(tree.dirs, "qairt").value.dirs))
  }

  /** The directories `os.walk` visits, with the path prefix of their entries. */
  datatype Root = Root(prefix: string, files: seq<Leaf>)

  function Roots(filter: Filter, tree: Tree, prefix: string): seq<Root>
    decreases tree, 1
  {
    [Root(prefix, tree.files)] + ForestRoots(filter, tree.dirs, prefix)
  }

  function ForestRoots(filter: Filter, dirs: Forest, prefix: string): seq<Root>
    decreases dirs, 0
  {
    match dirs
    case NoMore => []
    case Sub(name, tree, rest) =>
      (if filter.enters(name) then Roots(filter, tree, prefix + name + "/") else []) + ForestRoots(filter, rest, prefix)
  }

  function RootsFound(filter: Filter, roots: seq<Root>): seq<Found> {
    if roots == [] then []
    else
      var last := roots[|roots| - 1];
      RootsFound(filter, roots[..|roots| - 1]) + FilesFound(filter, last.files, last.prefix)
  }

  lemma Assoc<T>(a: seq<T>, b: seq<T>, c: seq<T>)
    ensures a + (b + c) == (a + b) + c
  {
  }

  lemma {:induction false} RootsFoundConcat(filter: Filter, a: seq<Root>, b: seq<Root>)
    ensures RootsFound(filter, a + b) == RootsFound(filter, a) + RootsFound(filter, b)
  {
    if b == [] {
      assert a + b == a;
    } else {
      var n, last := |b| - 1, b[|b| - 1];
      RootsFoundConcat(filter, a, b[..n]);
      assert (a + b)[..|a| + n] == a + b[..n] && (a + b)[|a| + n] == last;
      Assoc(RootsFound(filter, a), RootsFound(filter, b[..n]), FilesFound(filter, last.files, last.prefix));
    }
  }

  lemma OneRoot(filter: Filter, root: Root)
    ensures RootsFound(filter, [root]) == FilesFound(filter, root.files, root.prefix)
  {
    assert [root][..0] == [];
  }

  /** Visiting directory by directory finds what the recursive walk finds, in the same order. */
  lemma {:induction false} RootsFindTheTree(filter: Filter, tree: Tree, prefix: string)
    ensures RootsFound(filter, Roots(filter, tree, prefix)) == TreeFound(filter, tree, prefix)
    decreases tree, 1
  {
    ForestRootsFind(filter, tree.dirs, prefix);
    OneRoot(filter, Root(prefix, tree.files));
    RootsFoundConcat(filter, [Root(prefix, tree.files)], ForestRoots(filter, tree.dirs, prefix));
  }

  lemma {:induction false} ForestRootsFind(filter: Filter, dirs: Forest, prefix: string)
    ensures RootsFound(filter, ForestRoots(filter, dirs, prefix)) == ForestFound(filter, dirs, prefix)
    decreases dirs, 0
  {
    match dirs
    case NoMore =>
    case Sub(name, tree, rest) =>
      var first := if filter.enters(name) then Roots(filter, tree, prefix + name + "/") else [];
      RootsFindTheTree(filter, tree, prefix + name + "/");
      ForestRootsFind(filter, rest, prefix);
      RootsFoundConcat(filter, first, ForestRoots(filter, rest, prefix));
  }

  lemma {:induction false} EntriesOfConcat(env: Env, a: seq<Found>, b: seq<Found>)
    ensures EntriesOf(env, a + b) == EntriesOf(env, a) + EntriesOf(env, b)
  {
    if a == [] {
      assert a + b == b;
    } else {
      EntriesOfConcat(env, a[1..], b);
      assert (a + b)[1..] == a[1..] + b;
    }
  }

  lemma RootEntries(env: Env, filter: Filter, roots: seq<Root>, i: nat)
    requires i < |roots|
    ensures EntriesOf(env, RootsFound(filter, roots[..i + 1])) ==
              EntriesOf(env, RootsFound(filter, roots[..i])) + EntriesOf(env, FilesFound(filter, roots[i].files, roots[i].prefix))
  {
    assert roots[..i + 1][..i] == roots[..i];
    EntriesOfConcat(env, RootsFound(filter, roots[..i]), FilesFound(filter, roots[i].files, roots[i].prefix));
  }

  lemma LeafEntries(env: Env, filter: Filter, files: seq<Leaf>, prefix: string, i: nat)
    requires i < |files|
    ensures EntriesOf(env, FilesFound(filter, files[..i + 1], prefix)) ==
              EntriesOf(env, FilesFound(filter, files[..i], prefix)) + EntriesOf(env, LeafFound(filter, files[i], prefix))
  {
    assert files[..i + 1][..i] == files[..i];
    EntriesOfConcat(env, FilesFound(filter, files[..i], prefix), LeafFound(filter, files[i], prefix));
  }

  /** The loops of `_directory_identity`: one line per wanted file, directory by directory. */
  method DirectoryEntries(env: Env, filter: Filter, tree: Tree) returns (entries: seq<Entry>)
    ensures entries == EntriesOf(env, TreeFound(filter, tree, ""))
  {
    var roots := Roots(filter, tree, "");
    RootsFindTheTree(filter, tree, "");
    entries := [];
    var i := 0;
    while i < |roots|
      invariant 0 <= i <= |roots| && entries == EntriesOf(env, RootsFound(filter, roots[..i]))
    {
      var more := FileEntries(env, filter, roots[i]);
      RootEntries(env, filter, roots, i);
      entries := entries + more;
      i := i + 1;
    }
    assert roots[..i] == roots;
  }

  method FileEntries(env: Env, filter: Filter, root: Root) returns (entries: seq<Entry>)
    ensures entries == EntriesOf(env, FilesFound(filter, root.files, root.prefix))
  {
    entries := [];
    var i := 0;
    while i < |root.files|
      invariant 0 <= i <= |root.files| && entries == EntriesOf(env, FilesFound(filter, root.files[..i], root.prefix))
    {
      var leaf := root.files[i];
      LeafEntries(env, filter, root.files, root.prefix, i);
      if filter.lists(leaf.name) {
        if leaf.Link? {
          entries := entries + [LinkEntry(root.prefix + leaf.name, leaf.target)];
        } else if leaf.Plain? {
          entries := entries + [FileEntry(root.prefix + leaf.name, env.sha(leaf.bytes), |leaf.bytes|)];
        }
      }
      i := i + 1;
    }
    assert root.files[..i] == root.files;
  }

  // ---------------------------------------------- questions asked on disk

  datatype NodeKind = IsMissing | IsFile | IsDirectory | IsDevice

  function KindOf(fs: FileSystem, path: Path): NodeKind {
    if path !in fs then IsMissing
    else match fs[path] case File(_) => IsFile case Directory(_) => IsDirectory case Device => IsDevice
  }

  datatype Question =
    | WhatKind(path: Path)
    | IsDir(path: Path)
    | IsRegular(path: Path)
    | Sdk(path: Path)
    | Listing(path: Path, configOnly: bool)
    | Content(path: Path)

  datatype Answer = Of(kind: NodeKind) | Flag(holds: bool) | Entries(found: seq<Found>) | Raw(bytes: Bytes) | Nothing

  function Ask(env: Env, fs: FileSystem, q: Question): Answer {
    match q
    case WhatKind(path) => Of(KindOf(fs, path))
    case IsDir(path) => Flag(KindOf(fs, path).IsDirectory?)
    case IsRegular(path) => Flag(KindOf(fs, path).IsFile?)
    case Sdk(path) => if KindOf(fs, path).IsDirectory? then Flag(LooksLikeSdk(fs[path].tree)) else Nothing
    case Listing(path, configOnly) =>
      if KindOf(fs, path).IsDirectory? then Entries(TreeFound(FilterFor(env, configOnly), fs[path].tree, "")) else Nothing
    case Content(path) => if KindOf(fs, path).IsFile? then Raw(fs[path].bytes) else Nothing
  }

  predicate SameAnswers(env: Env, fs: FileSystem, other: FileSystem, asked: set<Question>) {
    forall q | q in asked :: Ask(env, fs, q) == Ask(env, other, q)
  }

  /** No directory that looks like an SDK installation is listed. */
  predicate NoSdkListing(fs: FileSystem, asked: set<Question>) {
    forall q | q in asked && q.Listing? :: KindOf(fs, q.path).IsDirectory? && !LooksLikeSdk(fs[q.path].tree)
  }

  /** The outcome of a walk together with everything it asked the disk before it ended. */
  datatype Walk<T> = Walk(result: Result<T, Failure>, asked: set<Question>)

  // ------------------------------------------------------------ the walk

  function DirectoryWalk(env: Env, fs: FileSystem, path: Path, key: seq<string>,
                         expected: Option<string>): (w: Walk<Ident>)
    requires KindOf(fs, path).IsDirectory?
    ensures NoSdkListing(fs, w.asked)
  {
    if IsSdkField(env, key) then Walk(Ok(SdkDirectory(path)), {})
    else if LooksLikeSdk(fs[path].tree) then Walk(Ok(SdkDirectory(path)), {Sdk(path)})
    else
      var configOnly := FieldName(env, key) in CONFIG_ONLY_FIELDS;
      var entries := EntriesOf(env, TreeFound(FilterFor(env, configOnly), fs[path].tree, ""));
      var sha := env.digest(entries);
      Walk(if expected.Some? && sha != expected.value then Err(HashMismatch(path))
           else Ok(DirectoryOf(path, sha, |entries|, TotalSize(entries))),
           {Sdk(path), Listing(path, configOnly)})
  }

  /** `_path_identity`. */
  function PathWalk(env: Env, fs: FileSystem, path: Path, key: seq<string>, expected: Option<string>,
                    active: set<Path>): (w: Walk<Ident>)
    ensures NoSdkListing(fs, w.asked)
    decreases fs.Keys - active, 1
  {
    if IsOutputField(env, key) then Walk(Ok(OutputOnly(path)), {})
    else
      var rest := match KindOf(fs, path)
        case IsMissing => Walk(if expected.Some? then Err(NotFound(path)) else Ok(MissingPath(path)), {})
        case IsDirectory => DirectoryWalk(env, fs, path, key, expected)
        case IsDevice => Walk(Err(NotFound(path)), {})
        case IsFile => FileWalk(env, fs, path, key, expected, active);
      Walk(rest.result, rest.asked + {WhatKind(path)})
  }

  /** `_file_identity`: a file already being walked is only marked; `active` grows by this file for what it refers to. */
  function FileWalk(env: Env, fs: FileSystem, path: Path, key: seq<string>, expected: Option<string>,
                    active: set<Path>): (w: Walk<Ident>)
    requires KindOf(fs, path).IsFile?
    ensures NoSdkListing(fs, w.asked)
    decreases fs.Keys - active, 0
  {
    if path in active then Walk(Ok(Cycle(path)), {})
    else
      assert path in fs.Keys - active;
      var bytes := fs[path].bytes;
      var sha := env.sha(bytes);
      if expected.Some? && sha != expected.value then Walk(Err(HashMismatch(path)), {Content(path)})
      else
        var external := ExternalWalk(env, fs, path, bytes, key, active + {path});
        if external.result.Err? then Walk(Err(external.result.error), external.asked + {Content(path)})
        else
          var referenced := ReferencedWalk(env, fs, path, bytes, key, active + {path});
          Walk(if referenced.result.Err? then Err(referenced.result.error)
               else Ok(FileOf(path, sha, |bytes|, external.result.value, referenced.result.value)),
               external.asked + referenced.asked + {Content(path)})
  }

  /** The external data of an ONNX file; every file named there must exist. */
  function ExternalWalk(env: Env, fs: FileSystem, path: Path, bytes: Bytes, key: seq<string>,
                        active: set<Path>): (w: Walk<Option<seq<Ident>>>)
    ensures NoSdkListing(fs, w.asked)
    decreases fs.Keys - active, 4
  {
    if !IsOnnx(env, path) then Walk(Ok(None), {})
    else match env.external(path, bytes)
      case None => Walk(Err(BadOnnx(path)), {})
      case Some(paths) =>
        var all := PathsWalk(env, fs, paths, 0, key, active);
        Walk(if all.result.Err? then Err(all.result.error) else Ok(Some(all.result.value)), all.asked)
  }

  function PathsWalk(env: Env, fs: FileSystem, paths: seq<Path>, index: nat, key: seq<string>,
                     active: set<Path>): (w: Walk<seq<Ident>>)
    requires index <= |paths|
    ensures NoSdkListing(fs, w.asked)
    decreases fs.Keys - active, 3, |paths| - index
  {
    if index == |paths| then Walk(Ok([]), {})
    else if !KindOf(fs, paths[index]).IsFile? then Walk(Err(NotFound(paths[index])), {IsRegular(paths[index])})
    else
      var first := PathWalk(env, fs, paths[index], key + ["external_data_" + Text.ZeroPadded(index, 3)], None, active);
      if first.result.Err? then Walk(Err(first.result.error), first.asked + {IsRegular(paths[index])})
      else
        var rest := PathsWalk(env, fs, paths, index + 1, key, active);
        Walk(if rest.result.Err? then rest.result else Ok([first.result.value] + rest.result.value),
             first.asked + rest.asked + {IsRegular(paths[index])})
  }

  /** What a JSON manifest refers to, relative to its own directory. */
  function ReferencedWalk(env: Env, fs: FileSystem, path: Path, bytes: Bytes, key: seq<string>,
                          active: set<Path>): (w: Walk<Option<Ident>>)
    ensures NoSdkListing(fs, w.asked)
    decreases fs.Keys - active, 4
  {
    if !IsManifestPath(env, path, key) then Walk(Ok(None), {})
    else match env.json(bytes)
      case None => Walk(Err(BadJson(path)), {})
      case Some(payload) =>
        var inner := ContentWalk(env, fs, payload, key + ["manifest_content"], Some(Parent(path)), None, active);
        Walk(if inner.result.Err? then Err(inner.result.error) else Ok(Some(inner.result.value)), inner.asked)
  }

  /** `_content_identity`. A string counts as a path if its field says so or if something exists there. */
  function ContentWalk(env: Env, fs: FileSystem, value: Value, key: seq<string>, base: Option<Path>,
                       expected: Option<string>,
                       active: set<Path>): (w: Walk<Ident>)
    ensures NoSdkListing(fs, w.asked)
    decreases fs.Keys - active, 3, value
  {
    match value
    case Literal(text) => Walk(Ok(SameLiteral(text)), {})
    case PathLike(text) =>
      (match env.resolve(text, base)
       case None => Walk(Err(Unresolvable(text)), {})
       case Some(path) => PathWalk(env, fs, path, key, expected, active))
    case Str(text) => TextWalk(env, fs, text, key, env.resolve(text, base), expected, active)
    case Mapping(fields) =>
      var all := FieldsWalk(env, fs, fields, fields, key, base, active);
      Walk(if all.result.Err? then Err(all.result.error) else Ok(MappingOf(all.result.value)), all.asked)
    case List(items) =>
      var all := ItemsWalk(env, fs, items, 0, key, base, active);
      Walk(if all.result.Err? then Err(all.result.error) else Ok(ListOf(all.result.value)), all.asked)
  }

  function TextWalk(env: Env, fs: FileSystem, text: string, key: seq<string>, path: Option<Path>,
                    expected: Option<string>,
                    active: set<Path>): (w: Walk<Ident>)
    ensures NoSdkListing(fs, w.asked)
    decreases fs.Keys - active, 2
  {
    if path.None? then Walk(Ok(SameText(text)), {})
    else if IsSdkField(env, key) then
      if !KindOf(fs, path.value).IsDirectory? then Walk(Ok(SameText(text)), {IsDir(path.value)})
      else
        var inner := PathWalk(env, fs, path.value, key, expected, active);
        Walk(inner.result, inner.asked + {IsDir(path.value)})
    else if IsOutputField(env, key) then Walk(Ok(SameText(text)), {})
    else if IsPathField(env, key) || !KindOf(fs, path.value).IsMissing? then PathWalk(env, fs, path.value, key, expected, active)
    else Walk(Ok(SameText(text)), {WhatKind(path.value)})
  }

  function FieldsWalk(env: Env, fs: FileSystem, all: Fields, fields: Fields, key: seq<string>, base: Option<Path>,
                      active: set<Path>): (w: Walk<seq<(string, Ident)>>)
    ensures NoSdkListing(fs, w.asked)
    decreases fs.Keys - active, 3, fields
  {
    match fields
    case NoFields => Walk(Ok([]), {})
    case Field(name, value, more) =>
      var first := ContentWalk(env, fs, value, key + [name], base, ExpectedSha(env, all, name), active);
      if first.result.Err? then Walk(Err(first.result.error), first.asked)
      else
        var rest := FieldsWalk(env, fs, all, more, key, base, active);
        Walk(if rest.result.Err? then rest.result else Ok([(name, first.result.value)] + rest.result.value),
             first.asked + rest.asked)
  }

  function ItemsWalk(env: Env, fs: FileSystem, items: Items, index: nat, key: seq<string>, base: Option<Path>,
                     active: set<Path>): (w: Walk<seq<Ident>>)
    ensures NoSdkListing(fs, w.asked)
    decreases fs.Keys - active, 3, items
  {
    match items
    case NoItems => Walk(Ok([]), {})
    case Item(value, more) =>
      var first := ContentWalk(env, fs, value, key + [Text.Decimal(index)], base, None, active);
      if first.result.Err? then Walk(Err(first.result.error), first.asked)
      else
        var rest := ItemsWalk(env, fs, more, index + 1, key, base, active);
        Walk(if rest.result.Err? then rest.result else Ok([first.result.value] + rest.result.value),
             first.asked + rest.asked)
  }

  function Identity(env: Env, fs: FileSystem, value: Value): (w: Walk<Ident>)
    ensures NoSdkListing(fs, w.asked)
  {
    ContentWalk(env, fs, value, [], None, None, {})
  }

  // ------------------------------------------------------ main results

  ghost predicate CollisionFree(env: Env) {
    && (forall a, b :: env.sha(a) == env.sha(b) ==> a == b)
    && (forall a, b :: env.digest(a) == env.digest(b) ==> a == b)
  }

  /**
   The relation proved by induction over a walk: the other disk gives the same walk if it gives the same answers,
   and can give the same successful result only by giving the same answers.
   */
  ghost predicate Alike<T(!new)>(env: Env, fs: FileSystem, other: FileSystem, here: Walk<T>, there: Walk<T>) {
    && (SameAnswers(env, fs, other, here.asked) ==> here == there)
    && (here.result.Ok? && here.result == there.result ==> SameAnswers(env, fs, other, here.asked))
  }

  lemma {:induction false} EntriesInjective(env: Env, a: seq<Found>, b: seq<Found>)
    requires CollisionFree(env) && EntriesOf(env, a) == EntriesOf(env, b)
    ensures a == b
  {
    if a != [] {
      var ea, eb := EntriesOf(env, a), EntriesOf(env, b);
      assert ea[0] == eb[0] && ea[1..] == eb[1..];
      assert ea[1..] == EntriesOf(env, a[1..]) && eb[1..] == EntriesOf(env, b[1..]);
      EntriesInjective(env, a[1..], b[1..]);
      assert a == [a[0]] + a[1..] && b == [b[0]] + b[1..];
    }
  }

  lemma DirectoryAlike(env: Env, fs: FileSystem, other: FileSystem, path: Path, key: seq<string>,
                       expected: Option<string>)
    requires CollisionFree(env) && KindOf(fs, path).IsDirectory? && KindOf(other, path).IsDirectory?
    ensures Alike(env, fs, other, DirectoryWalk(env, fs, path, key, expected),
                                  DirectoryWalk(env, other, path, key, expected))
  {
    if !IsSdkField(env, key) {
      var configOnly := FieldName(env, key) in CONFIG_ONLY_FIELDS;
      var a := TreeFound(FilterFor(env, configOnly), fs[path].tree, "");
      var b := TreeFound(FilterFor(env, configOnly), other[path].tree, "");
      assert Ask(env, fs, Listing(path, configOnly)) == Entries(a);
      assert Ask(env, other, Listing(path, configOnly)) == Entries(b);
      assert Ask(env, fs, Sdk(path)) == Flag(LooksLikeSdk(fs[path].tree));
      assert Ask(env, other, Sdk(path)) == Flag(LooksLikeSdk(other[path].tree));
      var here, there := DirectoryWalk(env, fs, path, key, expected), DirectoryWalk(env, other, path, key, expected);
      if here.result.Ok? && here.result == there.result && here.result.value.DirectoryOf? {
        EntriesInjective(env, a, b);
      }
    }
  }

  lemma ConsInjective<T>(a: T, b: T, more: seq<T>, rest: seq<T>)
    requires [a] + more == [b] + rest
    ensures a == b && more == rest
  {
    assert ([a] + more)[0] == a && ([b] + rest)[0] == b;
    assert ([a] + more)[1..] == more && ([b] + rest)[1..] == rest;
  }

  /** A path identity is never mistaken for a plain string. */
  lemma PathIsNotText(env: Env, fs: FileSystem, path: Path, key: seq<string>, expected: Option<string>,
                      active: set<Path>, text: string)
    ensures PathWalk(env, fs, path, key, expected, active).result != Ok(SameText(text))
  {
    if !IsOutputField(env, key) { KindShows(env, fs, path, key, expected, active); }
  }

  lemma PathAlike(env: Env, fs: FileSystem, other: FileSystem, path: Path, key: seq<string>, expected: Option<string>,
                  active: set<Path>)
    requires CollisionFree(env)
    ensures Alike(env, fs, other, PathWalk(env, fs, path, key, expected, active),
                                  PathWalk(env, other, path, key, expected, active))
    decreases fs.Keys - active, 1
  {
    if !IsOutputField(env, key) {
      assert Ask(env, fs, WhatKind(path)) == Of(KindOf(fs, path)) && Ask(env, other, WhatKind(path)) == Of(KindOf(other, path));
      if KindOf(fs, path) == KindOf(other, path) {
        if KindOf(fs, path).IsDirectory? {
          DirectoryAlike(env, fs, other, path, key, expected);
        } else if KindOf(fs, path).IsFile? {
          FileAlike(env, fs, other, path, key, expected, active);
        }
      } else {
        KindShows(env, fs, path, key, expected, active);
        KindShows(env, other, path, key, expected, active);
      }
    }
  }

  /** A successful result of `_path_identity` gives away what kind of thing is at the path. */
  lemma KindShows(env: Env, fs: FileSystem, path: Path, key: seq<string>, expected: Option<string>, active: set<Path>)
    requires !IsOutputField(env, key)
    ensures var w := PathWalk(env, fs, path, key, expected, active);
            w.result.Ok? ==>
              match KindOf(fs, path)
              case IsMissing => w.result.value.MissingPath?
              case IsDirectory => w.result.value.SdkDirectory? || w.result.value.DirectoryOf?
              case IsFile => w.result.value.Cycle? || w.result.value.FileOf?
              case IsDevice => false
  {
  }

  lemma FileAlike(env: Env, fs: FileSystem, other: FileSystem, path: Path, key: seq<string>, expected: Option<string>,
                  active: set<Path>)
    requires CollisionFree(env) && KindOf(fs, path).IsFile? && KindOf(other, path).IsFile?
    ensures Alike(env, fs, other, FileWalk(env, fs, path, key, expected, active),
                                  FileWalk(env, other, path, key, expected, active))
    decreases fs.Keys - active, 0
  {
    if path !in active {
      assert path in fs.Keys - active;
      assert Ask(env, fs, Content(path)) == Raw(fs[path].bytes) && Ask(env, other, Content(path)) == Raw(other[path].bytes);
      if fs[path].bytes == other[path].bytes {
        ExternalAlike(env, fs, other, path, fs[path].bytes, key, active + {path});
        ReferencedAlike(env, fs, other, path, fs[path].bytes, key, active + {path});
      }
    }
  }

  lemma ExternalAlike(env: Env, fs: FileSystem, other: FileSystem, path: Path, bytes: Bytes, key: seq<string>,
                      active: set<Path>)
    requires CollisionFree(env)
    ensures Alike(env, fs, other, ExternalWalk(env, fs, path, bytes, key, active),
                                  ExternalWalk(env, other, path, bytes, key, active))
    decreases fs.Keys - active, 4
  {
    if IsOnnx(env, path) && env.external(path, bytes).Some? {
      PathsAlike(env, fs, other, env.external(path, bytes).value, 0, key, active);
    }
  }

  lemma PathsAlike(env: Env, fs: FileSystem, other: FileSystem, paths: seq<Path>, index: nat, key: seq<string>,
                   active: set<Path>)
    requires CollisionFree(env) && index <= |paths|
    ensures Alike(env, fs, other, PathsWalk(env, fs, paths, index, key, active),
                                  PathsWalk(env, other, paths, index, key, active))
    decreases fs.Keys - active, 3, |paths| - index
  {
    if index < |paths| {
      var q := IsRegular(paths[index]);
      assert Ask(env, fs, q) == Flag(KindOf(fs, paths[index]).IsFile?);
      assert Ask(env, other, q) == Flag(KindOf(other, paths[index]).IsFile?);
      PathAlike(env, fs, other, paths[index], key + ["external_data_" + Text.ZeroPadded(index, 3)], None, active);
      PathsAlike(env, fs, other, paths, index + 1, key, active);
      var here := PathsWalk(env, fs, paths, index, key, active);
      var there := PathsWalk(env, other, paths, index, key, active);
      if here.result.Ok? && here.result == there.result {
        var inner := key + ["external_data_" + Text.ZeroPadded(index, 3)];
        ConsInjective(PathWalk(env, fs, paths[index], inner, None, active).result.value,
                      PathWalk(env, other, paths[index], inner, None, active).result.value,
                      PathsWalk(env, fs, paths, index + 1, key, active).result.value,
                      PathsWalk(env, other, paths, index + 1, key, active).result.value);
      }
    }
  }

  lemma ReferencedAlike(env: Env, fs: FileSystem, other: FileSystem, path: Path, bytes: Bytes, key: seq<string>,
                        active: set<Path>)
    requires CollisionFree(env)
    ensures Alike(env, fs, other, ReferencedWalk(env, fs, path, bytes, key, active),
                                  ReferencedWalk(env, other, path, bytes, key, active))
    decreases fs.Keys - active, 4
  {
    if IsManifestPath(env, path, key) && env.json(bytes).Some? {
      ContentAlike(env, fs, other, env.json(bytes).value, key + ["manifest_content"], Some(Parent(path)), None, active);
    }
  }

  lemma ContentAlike(env: Env, fs: FileSystem, other: FileSystem, value: Value, key: seq<string>, base: Option<Path>,
                     expected: Option<string>, active: set<Path>)
    requires CollisionFree(env)
    ensures Alike(env, fs, other, ContentWalk(env, fs, value, key, base, expected, active),
                                  ContentWalk(env, other, value, key, base, expected, active))
    decreases fs.Keys - active, 3, value
  {
    match value
    case Literal(_) =>
    case PathLike(text) =>
      if env.resolve(text, base).Some? { PathAlike(env, fs, other, env.resolve(text, base).value, key, expected, active); }
    case Str(text) => TextAlike(env, fs, other, text, key, env.resolve(text, base), expected, active);
    case Mapping(fields) => FieldsAlike(env, fs, other, fields, fields, key, base, active);
    case List(items) => ItemsAlike(env, fs, other, items, 0, key, base, active);
  }

  lemma TextAlike(env: Env, fs: FileSystem, other: FileSystem, text: string, key: seq<string>, path: Option<Path>,
                  expected: Option<string>, active: set<Path>)
    requires CollisionFree(env)
    ensures Alike(env, fs, other, TextWalk(env, fs, text, key, path, expected, active),
                                  TextWalk(env, other, text, key, path, expected, active))
    decreases fs.Keys - active, 2
  {
    if path.Some? {
      var p := path.value;
      assert Ask(env, fs, WhatKind(p)) == Of(KindOf(fs, p)) && Ask(env, other, WhatKind(p)) == Of(KindOf(other, p));
      assert Ask(env, fs, IsDir(p)) == Flag(KindOf(fs, p).IsDirectory?);
      assert Ask(env, other, IsDir(p)) == Flag(KindOf(other, p).IsDirectory?);
      PathAlike(env, fs, other, p, key, expected, active);
      PathIsNotText(env, fs, p, key, expected, active, text);
      PathIsNotText(env, other, p, key, expected, active, text);
    }
  }

  lemma FieldsAlike(env: Env, fs: FileSystem, other: FileSystem, all: Fields, fields: Fields, key: seq<string>,
                    base: Option<Path>,
                    active: set<Path>)
    requires CollisionFree(env)
    ensures Alike(env, fs, other, FieldsWalk(env, fs, all, fields, key, base, active),
                                  FieldsWalk(env, other, all, fields, key, base, active))
    decreases fs.Keys - active, 3, fields
  {
    match fields
    case NoFields =>
    case Field(name, value, more) =>
      ContentAlike(env, fs, other, value, key + [name], base, ExpectedSha(env, all, name), active);
      FieldsAlike(env, fs, other, all, more, key, base, active);
      var here := FieldsWalk(env, fs, all, fields, key, base, active);
      var there := FieldsWalk(env, other, all, fields, key, base, active);
      if here.result.Ok? && here.result == there.result {
        var stated := ExpectedSha(env, all, name);
        ConsInjective((name, ContentWalk(env, fs, value, key + [name], base, stated, active).result.value),
                      (name, ContentWalk(env, other, value, key + [name], base, stated, active).result.value),
                      FieldsWalk(env, fs, all, more, key, base, active).result.value,
                      FieldsWalk(env, other, all, more, key, base, active).result.value);
      }
  }

  lemma ItemsAlike(env: Env, fs: FileSystem, other: FileSystem, items: Items, index: nat, key: seq<string>,
                   base: Option<Path>,
                   active: set<Path>)
    requires CollisionFree(env)
    ensures Alike(env, fs, other, ItemsWalk(env, fs, items, index, key, base, active),
                                  ItemsWalk(env, other, items, index, key, base, active))
    decreases fs.Keys - active, 3, items
  {
    match items
    case NoItems =>
    case Item(value, more) =>
      ContentAlike(env, fs, other, value, key + [Text.Decimal(index)], base, None, active);
      ItemsAlike(env, fs, other, more, index + 1, key, base, active);
      var here := ItemsWalk(env, fs, items, index, key, base, active);
      var there := ItemsWalk(env, other, items, index, key, base, active);
      if here.result.Ok? && here.result == there.result {
        ConsInjective(ContentWalk(env, fs, value, key + [Text.Decimal(index)], base, None, active).result.value,
                      ContentWalk(env, other, value, key + [Text.Decimal(index)], base, None, active).result.value,
                      ItemsWalk(env, fs, more, index + 1, key, base, active).result.value,
                      ItemsWalk(env, other, more, index + 1, key, base, active).result.value);
      }
  }

  /**
   For one configuration, two disks give the same identity exactly when they give the same answer to every question
   the walk asked of the first: which files, which bytes, which directory entries, which existence tests.
   */
  lemma IdentityTellsDisksApart(env: Env, fs: FileSystem, other: FileSystem, value: Value)
    requires CollisionFree(env)
    requires Identity(env, fs, value).result.Ok? && Identity(env, other, value).result.Ok?
    ensures Identity(env, fs, value).result == Identity(env, other, value).result <==>
              SameAnswers(env, fs, other, Identity(env, fs, value).asked)
  {
    ContentAlike(env, fs, other, value, [], None, None, {});
  }

  /** Nothing outside what was asked matters, failures and their order included. */
  lemma IdentityIsLocal(env: Env, fs: FileSystem, other: FileSystem, value: Value)
    requires CollisionFree(env)
    requires SameAnswers(env, fs, other, Identity(env, fs, value).asked)
    ensures Identity(env, other, value) == Identity(env, fs, value)
  {
    ContentAlike(env, fs, other, value, [], None, None, {});
  }
}
