/**
 Which inputs a configuration depends on, said without the walk that reads them: what its mappings and lists mention,
 and what the files found there refer to in turn. The identity of a configuration changes exactly with these inputs.
 */
module InputReach {
  import opened Common
  import opened ContentIdentity
  import Text

  datatype Manner = AsPath | AsText | AsData

  /** A place that is named somewhere: as a path, as a string, or as the external data of an ONNX file. */
  datatype Mention = Mention(path: Path, key: seq<string>, expected: Option<string>, manner: Manner)

  // ---------------------------------------------------------- what is mentioned

  predicate Mentions(env: Env, value: Value, key: seq<string>, base: Option<Path>, expected: Option<string>, m: Mention)
    decreases value
  {
    match value
    case Literal(_) => false
    case PathLike(text) => env.resolve(text, base) == Some(m.path) && m == Mention(m.path, key, expected, AsPath)
    case Str(text) => env.resolve(text, base) == Some(m.path) && m == Mention(m.path, key, expected, AsText)
    case Mapping(fields) => FieldsMention(env, fields, fields, key, base, m)
    case List(items) => ItemsMention(env, items, 0, key, base, m)
  }

  predicate FieldsMention(env: Env, all: Fields, fields: Fields, key: seq<string>, base: Option<Path>, m: Mention)
    decreases fields
  {
    match fields
    case NoFields => false
    case Field(name, value, more) =>
      Mentions(env, value, key + [name], base, ExpectedSha(env, all, name), m) || FieldsMention(env, all, more, key, base, m)
  }

  predicate ItemsMention(env: Env, items: Items, index: nat, key: seq<string>, base: Option<Path>, m: Mention)
    decreases items
  {
    match items
    case NoItems => false
    case Item(value, more) =>
      Mentions(env, value, key + [Text.Decimal(index)], base, None, m) || ItemsMention(env, more, index + 1, key, base, m)
  }

  /** The external data file number `i` of an ONNX file. */
  function DataOf(key: seq<string>, path: Path, i: nat): Mention {
    Mention(path, key + ["external_data_" + Text.ZeroPadded(i, 3)], None, AsData)
  }

  predicate DataMentioned(paths: seq<Path>, key: seq<string>, m: Mention) {
    exists i :: 0 <= i < |paths| && m == DataOf(key, paths[i], i)
  }

  /** A file mentioned under this key refers to what an ONNX file keeps outside, and to what a manifest mentions. */
  predicate Refers(env: Env, fs: FileSystem, path: Path, key: seq<string>, m: Mention)
    requires path in fs && fs[path].File?
  {
    var bytes := fs[path].bytes;
    || (IsOnnx(env, path) && env.external(path, bytes).Some? && DataMentioned(env.external(path, bytes).value, key, m))
    || (IsManifestPath(env, path, key) && env.json(bytes).Some?
        && Mentions(env, env.json(bytes).value, key + ["manifest_content"], Some(Parent(path)), None, m))
  }

  /** The file behind this mention is read: not for output fields, nor for strings in fields that name an SDK. */
  predicate Opens(env: Env, fs: FileSystem, m: Mention) {
    m.path in fs && fs[m.path].File? && !IsOutputField(env, m.key) && (m.manner.AsText? ==> !IsSdkField(env, m.key))
  }

  /** From `m`, through files none of which is met twice, one gets to the mention `t`; `at` are the files on the way. */
  ghost predicate Reaches(env: Env, fs: FileSystem, m: Mention, active: set<Path>, t: Mention, at: set<Path>)
    decreases fs.Keys - active
  {
    || (t == m && at == active)
    || (Opens(env, fs, m) && m.path in fs.Keys - active
        && exists n :: Refers(env, fs, m.path, m.key, n) && Reaches(env, fs, n, active + {m.path}, t, at))
  }

  ghost predicate Reached(env: Env, fs: FileSystem, value: Value, t: Mention, at: set<Path>) {
    exists m :: Mentions(env, value, [], None, None, m) && Reaches(env, fs, m, {}, t, at)
  }

  /** What a mention can show of a disk. */
  datatype Sight =
    | Unseen | IsItAFile(yes: bool) | IsItADirectory(yes: bool)
    | Absent | Unreadable | SdkFolder | Holds(found: seq<Found>) | Reads(bytes: Bytes)

  function Sees(env: Env, fs: FileSystem, m: Mention): Sight {
    if m.manner.AsText? && IsSdkField(env, m.key) then IsItADirectory(KindOf(fs, m.path).IsDirectory?)
    else if IsOutputField(env, m.key) then
      if m.manner.AsData? then IsItAFile(KindOf(fs, m.path).IsFile?) else Unseen
    else match KindOf(fs, m.path)
      case IsMissing => Absent
      case IsDevice => Unreadable
      case IsFile => Reads(fs[m.path].bytes)
      case IsDirectory =>
        if IsSdkField(env, m.key) || LooksLikeSdk(fs[m.path].tree) then SdkFolder
        else Holds(TreeFound(FilterFor(env, FieldName(env, m.key) in CONFIG_ONLY_FIELDS), fs[m.path].tree, ""))
  }

  /** Everything reached from this mention looks the same on both disks. */
  ghost predicate LooksAlike(env: Env, fs: FileSystem, other: FileSystem, m: Mention, active: set<Path>) {
    forall t, at | Reaches(env, fs, m, active, t, at) :: Sees(env, fs, t) == Sees(env, other, t)
  }

  lemma LooksAlikeMeans(env: Env, fs: FileSystem, other: FileSystem, m: Mention, active: set<Path>)
    ensures LooksAlike(env, fs, other, m, active) <==>
              && Sees(env, fs, m) == Sees(env, other, m)
              && (Opens(env, fs, m) && m.path !in active ==>
                    forall n | Refers(env, fs, m.path, m.key, n) :: LooksAlike(env, fs, other, n, active + {m.path}))
  {
    assert Reaches(env, fs, m, active, m, active);
    if LooksAlike(env, fs, other, m, active) && Opens(env, fs, m) && m.path !in active {
      forall n | Refers(env, fs, m.path, m.key, n) ensures LooksAlike(env, fs, other, n, active + {m.path}) {
        forall t, at | Reaches(env, fs, n, active + {m.path}, t, at) ensures Sees(env, fs, t) == Sees(env, other, t) {
          assert Reaches(env, fs, m, active, t, at);
        }
      }
    }
    if !LooksAlike(env, fs, other, m, active) {
      var t, at :| Reaches(env, fs, m, active, t, at) && Sees(env, fs, t) != Sees(env, other, t);
      if t != m {
        var n :| Refers(env, fs, m.path, m.key, n) && Reaches(env, fs, n, active + {m.path}, t, at);
        assert !LooksAlike(env, fs, other, n, active + {m.path});
      }
    }
  }

  ghost predicate ValueAlike(env: Env, fs: FileSystem, other: FileSystem, value: Value, key: seq<string>,
                             base: Option<Path>, expected: Option<string>, active: set<Path>)
  {
    forall m | Mentions(env, value, key, base, expected, m) :: LooksAlike(env, fs, other, m, active)
  }

  ghost predicate FieldsLookAlike(env: Env, fs: FileSystem, other: FileSystem, all: Fields, fields: Fields, key: seq<string>,
                                  base: Option<Path>, active: set<Path>)
  {
    forall m | FieldsMention(env, all, fields, key, base, m) :: LooksAlike(env, fs, other, m, active)
  }

  ghost predicate ItemsLookAlike(env: Env, fs: FileSystem, other: FileSystem, items: Items, index: nat, key: seq<string>,
                                 base: Option<Path>, active: set<Path>)
  {
    forall m | ItemsMention(env, items, index, key, base, m) :: LooksAlike(env, fs, other, m, active)
  }

  ghost predicate DataAlike(env: Env, fs: FileSystem, other: FileSystem, paths: seq<Path>, index: nat, key: seq<string>,
                            active: set<Path>)
  {
    forall i | index <= i < |paths| :: LooksAlike(env, fs, other, DataOf(key, paths[i], i), active)
  }

  // ------------------------------------- the walk asks about what is reached

  /** These files are the same on both disks. */
  ghost predicate Agree(fs: FileSystem, other: FileSystem, active: set<Path>) {
    forall p | p in active :: KindOf(fs, p).IsFile? && KindOf(other, p).IsFile? && fs[p].bytes == other[p].bytes
  }

  /**
   Two disks on which all that is reached looks alike answer all questions of the walk alike; and conversely, if the
   walk succeeded.
   */
  ghost predicate Shown<T(!new)>(env: Env, fs: FileSystem, other: FileSystem, w: Walk<T>, active: set<Path>, alike: bool) {
    && (alike ==> SameAnswers(env, fs, other, w.asked))
    && (w.result.Ok? && SameAnswers(env, fs, other, w.asked) && Agree(fs, other, active) ==> alike)
  }

  lemma KindAnswers(env: Env, fs: FileSystem, path: Path)
    ensures Ask(env, fs, WhatKind(path)) == Of(KindOf(fs, path))
    ensures Ask(env, fs, IsDir(path)) == Flag(KindOf(fs, path).IsDirectory?)
    ensures Ask(env, fs, IsRegular(path)) == Flag(KindOf(fs, path).IsFile?)
    ensures KindOf(fs, path).IsFile? ==> Ask(env, fs, Content(path)) == Raw(fs[path].bytes)
  {
  }

  lemma FolderShown(env: Env, fs: FileSystem, other: FileSystem, m: Mention, active: set<Path>)
    requires KindOf(fs, m.path).IsDirectory? && KindOf(other, m.path).IsDirectory? && !IsOutputField(env, m.key)
    requires m.manner.AsText? ==> !IsSdkField(env, m.key)
    ensures SameAnswers(env, fs, other, DirectoryWalk(env, fs, m.path, m.key, m.expected).asked) <==>
              Sees(env, fs, m) == Sees(env, other, m)
  {
    var configOnly := FieldName(env, m.key) in CONFIG_ONLY_FIELDS;
    var here, there := fs[m.path].tree, other[m.path].tree;
    var filter := FilterFor(env, configOnly);
    assert Ask(env, fs, Sdk(m.path)) == Flag(LooksLikeSdk(here));
    assert Ask(env, other, Sdk(m.path)) == Flag(LooksLikeSdk(there));
    assert Ask(env, fs, Listing(m.path, configOnly)) == Entries(TreeFound(filter, here, ""));
    assert Ask(env, other, Listing(m.path, configOnly)) == Entries(TreeFound(filter, there, ""));
  }

  /** A path that is walked, whether given as a path, as a string or as the data of a file that is there. */
  lemma PathShown(env: Env, fs: FileSystem, other: FileSystem, m: Mention, active: set<Path>)
    requires m.manner.AsText? ==> !IsSdkField(env, m.key) && !IsOutputField(env, m.key)
    requires m.manner.AsData? ==> KindOf(fs, m.path).IsFile? && KindOf(other, m.path).IsFile?
    ensures Shown(env, fs, other, PathWalk(env, fs, m.path, m.key, m.expected, active), active,
                  LooksAlike(env, fs, other, m, active))
    decreases fs.Keys - active, 1, 0
  {
    LooksAlikeMeans(env, fs, other, m, active);
    KindAnswers(env, fs, m.path);
    KindAnswers(env, other, m.path);
    if !IsOutputField(env, m.key) && KindOf(fs, m.path) == KindOf(other, m.path) {
      if KindOf(fs, m.path).IsFile? {
        FileShown(env, fs, other, m, active);
      } else if KindOf(fs, m.path).IsDirectory? {
        FolderShown(env, fs, other, m, active);
      }
    }
  }

  lemma FileShown(env: Env, fs: FileSystem, other: FileSystem, m: Mention, active: set<Path>)
    requires Opens(env, fs, m) && KindOf(other, m.path).IsFile?
    ensures var w := FileWalk(env, fs, m.path, m.key, m.expected, active);
            Shown(env, fs, other, w, active, LooksAlike(env, fs, other, m, active))
    decreases fs.Keys - active, 0, 1
  {
    LooksAlikeMeans(env, fs, other, m, active);
    KindAnswers(env, fs, m.path);
    KindAnswers(env, other, m.path);
    if m.path !in active {
      FreshShown(env, fs, other, m, active);
    }
  }

  lemma FreshShown(env: Env, fs: FileSystem, other: FileSystem, m: Mention, active: set<Path>)
    requires Opens(env, fs, m) && m.path in fs.Keys - active && KindOf(other, m.path).IsFile?
    ensures Shown(env, fs, other, FileWalk(env, fs, m.path, m.key, m.expected, active), active,
                  LooksAlike(env, fs, other, m, active))
    decreases fs.Keys - active, 0, 0
  {
    var more := active + {m.path};
    LooksAlikeMeans(env, fs, other, m, active);
    KindAnswers(env, fs, m.path);
    KindAnswers(env, other, m.path);
    ExternalShown(env, fs, other, m.path, m.key, more);
    ReferencedShown(env, fs, other, m.path, m.key, more);
    RefersAlike(env, fs, other, m.path, m.key, more);
  }

  lemma RefersAlike(env: Env, fs: FileSystem, other: FileSystem, path: Path, key: seq<string>, active: set<Path>)
    requires KindOf(fs, path).IsFile?
    ensures (forall n | Refers(env, fs, path, key, n) :: LooksAlike(env, fs, other, n, active)) <==>
              DataLooksAlike(env, fs, other, path, key, active) && ContentLooksAlike(env, fs, other, path, key, active)
  {
    var external := env.external(path, fs[path].bytes);
    if IsOnnx(env, path) && external.Some? {
      assert forall i | 0 <= i < |external.value| :: DataMentioned(external.value, key, DataOf(key, external.value[i], i));
    }
  }

  ghost predicate DataLooksAlike(env: Env, fs: FileSystem, other: FileSystem, path: Path, key: seq<string>,
                                 active: set<Path>)
    requires KindOf(fs, path).IsFile?
  {
    var external := env.external(path, fs[path].bytes);
    IsOnnx(env, path) && external.Some? ==> DataAlike(env, fs, other, external.value, 0, key, active)
  }

  ghost predicate ContentLooksAlike(env: Env, fs: FileSystem, other: FileSystem, path: Path, key: seq<string>,
                                    active: set<Path>)
    requires KindOf(fs, path).IsFile?
  {
    var payload := env.json(fs[path].bytes);
    IsManifestPath(env, path, key) && payload.Some? ==>
      ValueAlike(env, fs, other, payload.value, key + ["manifest_content"], Some(Parent(path)), None, active)
  }

  lemma ExternalShown(env: Env, fs: FileSystem, other: FileSystem, path: Path, key: seq<string>, active: set<Path>)
    requires KindOf(fs, path).IsFile?
    ensures Shown(env, fs, other, ExternalWalk(env, fs, path, fs[path].bytes, key, active), active,
                  DataLooksAlike(env, fs, other, path, key, active))
    decreases fs.Keys - active, 4
  {
    var external := env.external(path, fs[path].bytes);
    if IsOnnx(env, path) && external.Some? {
      DataShown(env, fs, other, external.value, 0, key, active);
    }
  }

  lemma DatumShown(env: Env, fs: FileSystem, other: FileSystem, m: Mention, active: set<Path>)
    requires m.manner.AsData?
    ensures LooksAlike(env, fs, other, m, active) ==> Ask(env, fs, IsRegular(m.path)) == Ask(env, other, IsRegular(m.path))
    ensures KindOf(fs, m.path).IsFile? && Ask(env, fs, IsRegular(m.path)) == Ask(env, other, IsRegular(m.path)) ==>
              Shown(env, fs, other, PathWalk(env, fs, m.path, m.key, m.expected, active), active,
                    LooksAlike(env, fs, other, m, active))
    decreases fs.Keys - active, 2
  {
    LooksAlikeMeans(env, fs, other, m, active);
    KindAnswers(env, fs, m.path);
    KindAnswers(env, other, m.path);
    if KindOf(fs, m.path).IsFile? && KindOf(other, m.path).IsFile? {
      PathShown(env, fs, other, m, active);
    }
  }

  lemma DataShown(env: Env, fs: FileSystem, other: FileSystem, paths: seq<Path>, index: nat, key: seq<string>,
                  active: set<Path>)
    requires index <= |paths|
    ensures Shown(env, fs, other, PathsWalk(env, fs, paths, index, key, active), active,
                  DataAlike(env, fs, other, paths, index, key, active))
    decreases fs.Keys - active, 3, |paths| - index
  {
    if index < |paths| {
      var m := DataOf(key, paths[index], index);
      DatumShown(env, fs, other, m, active);
      DataShown(env, fs, other, paths, index + 1, key, active);
      assert DataAlike(env, fs, other, paths, index, key, active) <==>
             LooksAlike(env, fs, other, m, active) && DataAlike(env, fs, other, paths, index + 1, key, active);
    }
  }

  lemma ReferencedShown(env: Env, fs: FileSystem, other: FileSystem, path: Path, key: seq<string>, active: set<Path>)
    requires KindOf(fs, path).IsFile?
    ensures Shown(env, fs, other, ReferencedWalk(env, fs, path, fs[path].bytes, key, active), active,
                  ContentLooksAlike(env, fs, other, path, key, active))
    decreases fs.Keys - active, 4
  {
    var payload := env.json(fs[path].bytes);
    if IsManifestPath(env, path, key) && payload.Some? {
      ValueShown(env, fs, other, payload.value, key + ["manifest_content"], Some(Parent(path)), None, active);
    }
  }

  lemma ValueShown(env: Env, fs: FileSystem, other: FileSystem, value: Value, key: seq<string>, base: Option<Path>,
                   expected: Option<string>, active: set<Path>)
    ensures Shown(env, fs, other, ContentWalk(env, fs, value, key, base, expected, active), active,
                  ValueAlike(env, fs, other, value, key, base, expected, active))
    decreases fs.Keys - active, 3, value
  {
    match value
    case Literal(_) =>
    case PathLike(text) =>
      var path := env.resolve(text, base);
      if path.Some? {
        var m := Mention(path.value, key, expected, AsPath);
        PathShown(env, fs, other, m, active);
        assert ValueAlike(env, fs, other, value, key, base, expected, active) <==> LooksAlike(env, fs, other, m, active);
      }
    case Str(text) =>
      var path := env.resolve(text, base);
      if path.Some? {
        var m := Mention(path.value, key, expected, AsText);
        TextShown(env, fs, other, text, m, active);
        assert ValueAlike(env, fs, other, value, key, base, expected, active) <==> LooksAlike(env, fs, other, m, active);
      }
    case Mapping(fields) =>
      FieldsShown(env, fs, other, fields, fields, key, base, active);
      assert ValueAlike(env, fs, other, value, key, base, expected, active) <==>
             FieldsLookAlike(env, fs, other, fields, fields, key, base, active);
    case List(items) =>
      ItemsShown(env, fs, other, items, 0, key, base, active);
      assert ValueAlike(env, fs, other, value, key, base, expected, active) <==>
             ItemsLookAlike(env, fs, other, items, 0, key, base, active);
  }

  lemma TextShown(env: Env, fs: FileSystem, other: FileSystem, text: string, m: Mention, active: set<Path>)
    requires m.manner.AsText?
    ensures Shown(env, fs, other, TextWalk(env, fs, text, m.key, Some(m.path), m.expected, active), active,
                  LooksAlike(env, fs, other, m, active))
    decreases fs.Keys - active, 2
  {
    LooksAlikeMeans(env, fs, other, m, active);
    KindAnswers(env, fs, m.path);
    KindAnswers(env, other, m.path);
    if !IsSdkField(env, m.key) && !IsOutputField(env, m.key) {
      PathShown(env, fs, other, m, active);
    }
  }

  lemma FieldsShown(env: Env, fs: FileSystem, other: FileSystem, all: Fields, fields: Fields, key: seq<string>,
                    base: Option<Path>, active: set<Path>)
    ensures Shown(env, fs, other, FieldsWalk(env, fs, all, fields, key, base, active), active,
                  FieldsLookAlike(env, fs, other, all, fields, key, base, active))
    decreases fs.Keys - active, 3, fields
  {
    match fields
    case NoFields =>
    case Field(name, value, more) =>
      var expected := ExpectedSha(env, all, name);
      ValueShown(env, fs, other, value, key + [name], base, expected, active);
      FieldsShown(env, fs, other, all, more, key, base, active);
      assert FieldsLookAlike(env, fs, other, all, fields, key, base, active) <==>
             ValueAlike(env, fs, other, value, key + [name], base, expected, active)
             && FieldsLookAlike(env, fs, other, all, more, key, base, active);
  }

  lemma ItemsShown(env: Env, fs: FileSystem, other: FileSystem, items: Items, index: nat, key: seq<string>,
                   base: Option<Path>, active: set<Path>)
    ensures Shown(env, fs, other, ItemsWalk(env, fs, items, index, key, base, active), active,
                  ItemsLookAlike(env, fs, other, items, index, key, base, active))
    decreases fs.Keys - active, 3, items
  {
    match items
    case NoItems =>
    case Item(value, more) =>
      var inner := key + [Text.Decimal(index)];
      ValueShown(env, fs, other, value, inner, base, None, active);
      ItemsShown(env, fs, other, more, index + 1, key, base, active);
      assert ItemsLookAlike(env, fs, other, items, index, key, base, active) <==>
             ValueAlike(env, fs, other, value, inner, base, None, active)
             && ItemsLookAlike(env, fs, other, more, index + 1, key, base, active);
  }

  // ------------------------------------------------------ main results

  /** Every mention the configuration leads to looks the same on both disks. */
  ghost predicate InputsAlike(env: Env, fs: FileSystem, other: FileSystem, value: Value) {
    forall t, at | Reached(env, fs, value, t, at) :: Sees(env, fs, t) == Sees(env, other, t)
  }

  lemma InputsAlikeMeans(env: Env, fs: FileSystem, other: FileSystem, value: Value)
    ensures InputsAlike(env, fs, other, value) <==> ValueAlike(env, fs, other, value, [], None, None, {})
  {
    if InputsAlike(env, fs, other, value) {
      forall m, t, at | Mentions(env, value, [], None, None, m) && Reaches(env, fs, m, {}, t, at)
        ensures Sees(env, fs, t) == Sees(env, other, t)
      {
        assert Reached(env, fs, value, t, at);
      }
    } else {
      var t, at :| Reached(env, fs, value, t, at) && Sees(env, fs, t) != Sees(env, other, t);
      var m :| Mentions(env, value, [], None, None, m) && Reaches(env, fs, m, {}, t, at);
      assert !LooksAlike(env, fs, other, m, {});
    }
  }

  /** Two disks give a configuration the same identity exactly when every mention it leads to looks the same on both. */
  lemma IdentityShowsInputs(env: Env, fs: FileSystem, other: FileSystem, value: Value)
    requires CollisionFree(env)
    requires Identity(env, fs, value).result.Ok? && Identity(env, other, value).result.Ok?
    ensures Identity(env, fs, value).result == Identity(env, other, value).result <==> InputsAlike(env, fs, other, value)
  {
    ValueShown(env, fs, other, value, [], None, None, {});
    InputsAlikeMeans(env, fs, other, value);
    IdentityTellsDisksApart(env, fs, other, value);
  }

  /** What is not reached does not matter, not even for how the walk fails. */
  lemma OnlyInputsMatter(env: Env, fs: FileSystem, other: FileSystem, value: Value)
    requires CollisionFree(env) && InputsAlike(env, fs, other, value)
    ensures Identity(env, other, value) == Identity(env, fs, value)
  {
    ValueShown(env, fs, other, value, [], None, None, {});
    InputsAlikeMeans(env, fs, other, value);
    IdentityIsLocal(env, fs, other, value);
  }

  /**
   A file read on one of two disks, mentioned in the configuration, by a manifest or as external data, shows in the
   identity: it differs if the other disk has no such file, or one with other bytes.
   */
  lemma ChangedFileShows(env: Env, fs: FileSystem, other: FileSystem, value: Value, t: Mention, at: set<Path>)
    requires CollisionFree(env)
    requires Identity(env, fs, value).result.Ok? && Identity(env, other, value).result.Ok?
    requires Reached(env, fs, value, t, at) && Opens(env, fs, t)
    requires !(t.path in other && other[t.path].File? && other[t.path].bytes == fs[t.path].bytes)
    ensures Identity(env, fs, value).result != Identity(env, other, value).result
    ensures Identity(env, other, value).result != Identity(env, fs, value).result
  {
    IdentityShowsInputs(env, fs, other, value);
    assert Sees(env, fs, t) != Sees(env, other, t);
  }

  // --------------------------------------------------- directories listed

  /** The leaf lies in the tree below the directories of these names. */
  predicate Lies(tree: Tree, dirs: seq<string>, leaf: Leaf)
    decreases tree, 1
  {
    if dirs == [] then leaf in tree.files else LiesInside(tree.dirs, dirs, leaf)
  }

  predicate LiesInside(forest: Forest, dirs: seq<string>, leaf: Leaf)
    requires dirs != []
    decreases forest, 0
  {
    match forest
    case NoMore => false
    case Sub(name, tree, rest) => (name == dirs[0] && Lies(tree, dirs[1..], leaf)) || LiesInside(rest, dirs, leaf)
  }

  function Joined(dirs: seq<string>): string {
    if dirs == [] then "" else dirs[0] + "/" + Joined(dirs[1..])
  }

  predicate Unpruned(filter: Filter, dirs: seq<string>) {
    forall d | d in dirs :: filter.enters(d)
  }

  /** The line that stands for this leaf of the directory with this relative path. */
  predicate StandsFor(f: Found, leaf: Leaf, prefix: string) {
    match leaf
    case Plain(name, bytes) => f == FoundFile(prefix + name, bytes)
    case Link(name, target) => f == FoundLink(prefix + name, target)
    case Special(_) => false
  }

  ghost predicate Shows(filter: Filter, tree: Tree, prefix: string, f: Found, dirs: seq<string>, leaf: Leaf) {
    Lies(tree, dirs, leaf) && Unpruned(filter, dirs) && filter.lists(leaf.name) && StandsFor(f, leaf, prefix + Joined(dirs))
  }

  ghost predicate ShowsInside(filter: Filter, forest: Forest, prefix: string, f: Found, dirs: seq<string>, leaf: Leaf) {
    && dirs != [] && LiesInside(forest, dirs, leaf) && Unpruned(filter, dirs) && filter.lists(leaf.name)
    && StandsFor(f, leaf, prefix + Joined(dirs))
  }

  lemma {:induction false} FilesFoundMean(filter: Filter, files: seq<Leaf>, prefix: string, f: Found)
    ensures f in FilesFound(filter, files, prefix) <==>
              exists leaf :: leaf in files && filter.lists(leaf.name) && StandsFor(f, leaf, prefix)
  {
    if files != [] {
      var n := |files| - 1;
      FilesFoundMean(filter, files[..n], prefix, f);
      assert files == files[..n] + [files[n]];
    }
  }

  /** The line is there exactly when some listed leaf, under directories none of which is pruned, stands behind it. */
  lemma {:induction false} TreeFoundMeans(filter: Filter, tree: Tree, prefix: string, f: Found)
    ensures f in TreeFound(filter, tree, prefix) <==> exists dirs, leaf :: Shows(filter, tree, prefix, f, dirs, leaf)
    decreases tree, 1
  {
    FilesFoundMean(filter, tree.files, prefix, f);
    ForestFoundMeans(filter, tree.dirs, prefix, f);
    assert prefix + "" == prefix;
    if f in FilesFound(filter, tree.files, prefix) {
      var leaf :| leaf in tree.files && filter.lists(leaf.name) && StandsFor(f, leaf, prefix);
      assert Shows(filter, tree, prefix, f, [], leaf);
    }
    if f in ForestFound(filter, tree.dirs, prefix) {
      var dirs, leaf :| ShowsInside(filter, tree.dirs, prefix, f, dirs, leaf);
      assert Shows(filter, tree, prefix, f, dirs, leaf);
    }
    if dirs, leaf :| Shows(filter, tree, prefix, f, dirs, leaf) {
      if dirs != [] { assert ShowsInside(filter, tree.dirs, prefix, f, dirs, leaf); }
    }
  }

  /** What stands in the first directory of a forest is what stands in its tree, one name deeper. */
  lemma FirstShows(filter: Filter, name: string, tree: Tree, rest: Forest, prefix: string, f: Found)
    ensures (filter.enters(name) && exists dirs, leaf :: Shows(filter, tree, prefix + name + "/", f, dirs, leaf)) ==>
              exists dirs, leaf :: ShowsInside(filter, Sub(name, tree, rest), prefix, f, dirs, leaf)
    ensures (exists dirs, leaf :: ShowsInside(filter, Sub(name, tree, rest), prefix, f, dirs, leaf)) ==>
              || (filter.enters(name) && exists dirs, leaf :: Shows(filter, tree, prefix + name + "/", f, dirs, leaf))
              || (exists dirs, leaf :: ShowsInside(filter, rest, prefix, f, dirs, leaf))
  {
    var below, forest := prefix + name + "/", Sub(name, tree, rest);
    if filter.enters(name) && exists dirs, leaf :: Shows(filter, tree, below, f, dirs, leaf) {
      var dirs, leaf :| Shows(filter, tree, below, f, dirs, leaf);
      assert ([name] + dirs)[1..] == dirs;
      assert below + Joined(dirs) == prefix + Joined([name] + dirs);
      assert ShowsInside(filter, forest, prefix, f, [name] + dirs, leaf);
    }
    if dirs, leaf :| ShowsInside(filter, forest, prefix, f, dirs, leaf) {
      if name == dirs[0] && Lies(tree, dirs[1..], leaf) {
        assert below + Joined(dirs[1..]) == prefix + Joined(dirs);
        assert Shows(filter, tree, below, f, dirs[1..], leaf);
      } else {
        assert ShowsInside(filter, rest, prefix, f, dirs, leaf);
      }
    }
  }

  lemma {:induction false} ForestFoundMeans(filter: Filter, forest: Forest, prefix: string, f: Found)
    ensures f in ForestFound(filter, forest, prefix) <==>
              exists dirs, leaf :: ShowsInside(filter, forest, prefix, f, dirs, leaf)
    decreases forest, 0
  {
    match forest
    case NoMore =>
    case Sub(name, tree, rest) =>
      TreeFoundMeans(filter, tree, prefix + name + "/", f);
      ForestFoundMeans(filter, rest, prefix, f);
      FirstShows(filter, name, tree, rest, prefix, f);
      if dirs, leaf :| ShowsInside(filter, rest, prefix, f, dirs, leaf) {
        assert ShowsInside(filter, forest, prefix, f, dirs, leaf);
      }
  }

  /** An entry that counts: under no ignored directory and, for fields that name a configuration, with its extension. */
  predicate Counts(env: Env, key: seq<string>, dirs: seq<string>, leaf: Leaf) {
    && (forall d | d in dirs :: d !in IGNORED_DIRECTORIES)
    && (FieldName(env, key) in CONFIG_ONLY_FIELDS ==> env.lower(Suffix(leaf.name)) in CONFIG_SUFFIXES)
  }

  /** The directory holds a counting entry with this relative path and these bytes or this link target. */
  ghost predicate HasEntry(env: Env, fs: FileSystem, t: Mention, f: Found) {
    t.path in fs && fs[t.path].Directory? &&
    exists dirs, leaf :: Lies(fs[t.path].tree, dirs, leaf) && Counts(env, t.key, dirs, leaf) && StandsFor(f, leaf, Joined(dirs))
  }

  lemma HoldsMeans(env: Env, fs: FileSystem, t: Mention, f: Found)
    requires Sees(env, fs, t).Holds?
    ensures f in Sees(env, fs, t).found <==> HasEntry(env, fs, t, f)
  {
    var filter, tree := FilterFor(env, FieldName(env, t.key) in CONFIG_ONLY_FIELDS), fs[t.path].tree;
    TreeFoundMeans(filter, tree, "", f);
    forall dirs: seq<string> ensures "" + Joined(dirs) == Joined(dirs) {
    }
    if dirs, leaf :| Lies(tree, dirs, leaf) && Counts(env, t.key, dirs, leaf) && StandsFor(f, leaf, Joined(dirs)) {
      assert Shows(filter, tree, "", f, dirs, leaf);
    }
    if dirs, leaf :| Shows(filter, tree, "", f, dirs, leaf) {
      assert Lies(tree, dirs, leaf) && Counts(env, t.key, dirs, leaf) && StandsFor(f, leaf, Joined(dirs));
    }
  }

  function Named(forest: Forest, name: string): nat {
    match forest
    case NoMore => 0
    case Sub(n, _, rest) => (if n == name then 1 else 0) + Named(rest, name)
  }

  lemma {:induction false} InsideMeans(forest: Forest, name: string, more: seq<string>, leaf: Leaf)
    requires Named(forest, name) <= 1
    ensures LiesInside(forest, [name] + more, leaf) <==>
              Find(forest, name).Some? && Lies(Find(forest, name).value, more, leaf)
    ensures Named(forest, name) == 0 ==> Find(forest, name).None?
  {
    match forest
    case NoMore =>
    case Sub(n, tree, rest) =>
      assert ([name] + more)[1..] == more;
      InsideMeans(rest, name, more, leaf);
  }

  lemma {:induction false} AnyYamlMeans(forest: Forest)
    ensures AnyHasSdkYaml(forest) <==> exists v, bytes :: LiesInside(forest, [v], Plain("sdk.yaml", bytes))
  {
    match forest
    case NoMore =>
    case Sub(n, tree, rest) =>
      AnyYamlMeans(rest);
      YamlMeans(tree);
      if HasFile(tree.files, "sdk.yaml") {
        var bytes :| Lies(tree, [], Plain("sdk.yaml", bytes));
        assert [n][1..] == [];
        assert LiesInside(forest, [n], Plain("sdk.yaml", bytes));
      }
      if v, bytes :| LiesInside(rest, [v], Plain("sdk.yaml", bytes)) {
        assert LiesInside(forest, [v], Plain("sdk.yaml", bytes));
      }
      if v, bytes :| LiesInside(forest, [v], Plain("sdk.yaml", bytes)) {
        assert [v][1..] == [];
      }
  }

  lemma YamlMeans(tree: Tree)
    ensures HasFile(tree.files, "sdk.yaml") <==> exists bytes :: Lies(tree, [], Plain("sdk.yaml", bytes))
  {
    if HasFile(tree.files, "sdk.yaml") {
      var i :| 0 <= i < |tree.files| && tree.files[i].Plain? && tree.files[i].name == "sdk.yaml";
      assert Lies(tree, [], Plain("sdk.yaml", tree.files[i].bytes));
    }
    if bytes :| Lies(tree, [], Plain("sdk.yaml", bytes)) {
      var i :| 0 <= i < |tree.files| && tree.files[i] == Plain("sdk.yaml", bytes);
    }
  }

  /** A directory looks like an SDK exactly when `sdk.yaml` lies in it, or in a subdirectory of its `qairt`. */
  lemma LooksLikeSdkMeans(tree: Tree)
    requires Named(tree.dirs, "qairt") <= 1
    ensures LooksLikeSdk(tree) <==>
              || (exists bytes :: Lies(tree, [], Plain("sdk.yaml", bytes)))
              || (exists v, bytes :: Lies(tree, ["qairt", v], Plain("sdk.yaml", bytes)))
  {
    YamlMeans(tree);
    var inner := Find(tree.dirs, "qairt");
    forall v, bytes
      ensures Lies(tree, ["qairt", v], Plain("sdk.yaml", bytes)) <==>
                inner.Some? && LiesInside(inner.value.dirs, [v], Plain("sdk.yaml", bytes))
    {
      assert ["qairt", v] == ["qairt"] + [v];
      InsideMeans(tree.dirs, "qairt", [v], Plain("sdk.yaml", bytes));
    }
    if inner.Some? { AnyYamlMeans(inner.value.dirs); }
  }

  /** The directory is listed: in no output or SDK field, and not an SDK installation itself. */
  predicate Lists(env: Env, fs: FileSystem, t: Mention) {
    t.path in fs && fs[t.path].Directory? && !IsOutputField(env, t.key) && !IsSdkField(env, t.key)
    && !LooksLikeSdk(fs[t.path].tree)
  }

  /** An entry of a listed directory that the other disk lacks, or has with other bytes, shows in the identity. */
  lemma ChangedEntryShows(env: Env, fs: FileSystem, other: FileSystem, value: Value, t: Mention, at: set<Path>, f: Found)
    requires CollisionFree(env)
    requires Identity(env, fs, value).result.Ok? && Identity(env, other, value).result.Ok?
    requires Reached(env, fs, value, t, at) && Lists(env, fs, t) && HasEntry(env, fs, t, f) && !HasEntry(env, other, t, f)
    ensures Identity(env, fs, value).result != Identity(env, other, value).result
    ensures Identity(env, other, value).result != Identity(env, fs, value).result
  {
    IdentityShowsInputs(env, fs, other, value);
    HoldsMeans(env, fs, t, f);
    if Sees(env, other, t).Holds? { HoldsMeans(env, other, t, f); }
  }
}
