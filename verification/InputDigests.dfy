/**
 What a successful identity says of its configuration: no input contradicts the digest stated beside it, and another
 configuration has the same identity only if it says the same about the same places.
 */
module InputDigests {
  import opened Common
  import opened ContentIdentity
  import opened InputReach
  import Text

  // ------------------------------------------------------- stated digests

  /** The first entry of this name; a null counts as missing. */
  predicate States(fields: Fields, name: string, text: string) {
    match fields
    case NoFields => false
    case Field(k, v, rest) => if k == name then v == Str(text) else States(rest, name, text)
  }

  predicate Has(fields: Fields, name: string) {
    match fields
    case NoFields => false
    case Field(k, v, rest) => if k == name then v != Literal("null") else Has(rest, name)
  }

  /** The entry that states the digest of field `key`: of `path`, of `x`, or of `x_path` unless that has its own. */
  predicate DigestField(fields: Fields, key: string, name: string) {
    if key == "path" then name == "sha256"
    else if Has(fields, key + "_sha256") || !Text.HasSuffix(key, "_path") then name == key + "_sha256"
    else name == key[..|key| - 5] + "_sha256"
  }

  lemma {:induction false} GetMeans(fields: Fields, name: string)
    ensures Get(fields, name).Some? <==> Has(fields, name)
    ensures forall text :: Get(fields, name) == Some(Str(text)) <==> States(fields, name, text)
  {
    match fields
    case NoFields =>
    case Field(_, _, rest) => GetMeans(rest, name);
  }

  /** A field's expected digest is the text beside it, in lower case, if it has 64 characters and reads as hexadecimal. */
  lemma ExpectedShaMeans(env: Env, fields: Fields, key: string, sha: string)
    ensures ExpectedSha(env, fields, key) == Some(sha) <==>
              exists name, text :: DigestField(fields, key, name) && States(fields, name, text)
                                   && |text| == 64 && env.parsesAsHex(text) && sha == env.lower(text)
  {
    var name := if key == "path" then "sha256"
                else if Has(fields, key + "_sha256") || !Text.HasSuffix(key, "_path") then key + "_sha256"
                else key[..|key| - 5] + "_sha256";
    GetMeans(fields, name);
    GetMeans(fields, key + "_sha256");
    assert DigestField(fields, key, name);
    if ExpectedSha(env, fields, key) == Some(sha) {
      var text := Get(fields, name).value.text;
      assert States(fields, name, text);
    }
  }

  /** Every path value among these can be resolved. */
  predicate Resolvable(env: Env, value: Value, base: Option<Path>)
    decreases value
  {
    match value
    case PathLike(text) => env.resolve(text, base).Some?
    case Mapping(fields) => FieldsResolvable(env, fields, base)
    case List(items) => ItemsResolvable(env, items, base)
    case _ => true
  }

  predicate FieldsResolvable(env: Env, fields: Fields, base: Option<Path>)
    decreases fields
  {
    fields.Field? ==> Resolvable(env, fields.value, base) && FieldsResolvable(env, fields.rest, base)
  }

  predicate ItemsResolvable(env: Env, items: Items, base: Option<Path>)
    decreases items
  {
    items.Item? ==> Resolvable(env, items.value, base) && ItemsResolvable(env, items.rest, base)
  }

  /** What the file itself has to say can be read. */
  predicate Parses(env: Env, path: Path, bytes: Bytes, key: seq<string>) {
    && (IsOnnx(env, path) ==> env.external(path, bytes).Some?)
    && (IsManifestPath(env, path, key) ==>
          env.json(bytes).Some? && Resolvable(env, env.json(bytes).value, Some(Parent(path))))
  }

  predicate HasDigest(t: Mention, actual: string) {
    t.expected.Some? ==> t.expected.value == actual
  }

  /** A mention of something that is not being walked already. */
  predicate Anew(t: Mention, at: set<Path>) {
    t.path !in at
  }

  /**
   What is found at this mention can be read and has the digest stated beside it. Nothing is looked for in output fields
   and under strings that name an SDK; a string need not name anything; external data has to be there.
   */
  predicate Fits(env: Env, fs: FileSystem, t: Mention, at: set<Path>) {
    if t.manner.AsText? && (IsSdkField(env, t.key) || IsOutputField(env, t.key)) then true
    else if IsOutputField(env, t.key) then t.manner.AsData? ==> KindOf(fs, t.path).IsFile?
    else match KindOf(fs, t.path)
      case IsMissing => !t.manner.AsData? && (t.expected.None? || (t.manner.AsText? && !IsPathField(env, t.key)))
      case IsDevice => false
      case IsDirectory =>
        !t.manner.AsData? && (Sees(env, fs, t).Holds? ==> HasDigest(t, env.digest(EntriesOf(env, Sees(env, fs, t).found))))
      case IsFile =>
        Anew(t, at) ==> HasDigest(t, env.sha(fs[t.path].bytes)) && Parses(env, t.path, fs[t.path].bytes, t.key)
  }

  /** All that is reached from this mention fits. */
  ghost predicate AllFit(env: Env, fs: FileSystem, m: Mention, active: set<Path>) {
    forall t, at | Reaches(env, fs, m, active, t, at) :: Fits(env, fs, t, at)
  }

  lemma AllFitMeans(env: Env, fs: FileSystem, m: Mention, active: set<Path>)
    ensures AllFit(env, fs, m, active) <==>
              && Fits(env, fs, m, active)
              && (Opens(env, fs, m) && m.path !in active ==>
                    forall n | Refers(env, fs, m.path, m.key, n) :: AllFit(env, fs, n, active + {m.path}))
  {
    assert Reaches(env, fs, m, active, m, active);
    if AllFit(env, fs, m, active) && Opens(env, fs, m) && m.path !in active {
      forall n | Refers(env, fs, m.path, m.key, n) ensures AllFit(env, fs, n, active + {m.path}) {
        forall t, at | Reaches(env, fs, n, active + {m.path}, t, at) ensures Fits(env, fs, t, at) {
          assert Reaches(env, fs, m, active, t, at);
        }
      }
    }
    if !AllFit(env, fs, m, active) {
      var t, at :| Reaches(env, fs, m, active, t, at) && !Fits(env, fs, t, at);
      if !(t == m && at == active) {
        var n :| Refers(env, fs, m.path, m.key, n) && Reaches(env, fs, n, active + {m.path}, t, at);
        assert !AllFit(env, fs, n, active + {m.path});
      }
    }
  }

  lemma PathFits(env: Env, fs: FileSystem, m: Mention, active: set<Path>)
    requires m.manner.AsText? ==> !IsSdkField(env, m.key) && !IsOutputField(env, m.key)
    requires m.manner.AsText? && KindOf(fs, m.path).IsMissing? ==> IsPathField(env, m.key)
    requires m.manner.AsData? ==> KindOf(fs, m.path).IsFile?
    ensures PathWalk(env, fs, m.path, m.key, m.expected, active).result.Ok? <==> AllFit(env, fs, m, active)
    decreases fs.Keys - active, 1
  {
    AllFitMeans(env, fs, m, active);
    if Opens(env, fs, m) && m.path !in active {
      FileFits(env, fs, m, active);
    }
  }

  ghost predicate DataFit(env: Env, fs: FileSystem, paths: seq<Path>, index: nat, key: seq<string>, active: set<Path>) {
    forall i | index <= i < |paths| :: AllFit(env, fs, DataOf(key, paths[i], i), active)
  }

  ghost predicate ValueFit(env: Env, fs: FileSystem, value: Value, key: seq<string>, base: Option<Path>,
                           expected: Option<string>, active: set<Path>)
  {
    Resolvable(env, value, base) && forall m | Mentions(env, value, key, base, expected, m) :: AllFit(env, fs, m, active)
  }

  lemma FileFits(env: Env, fs: FileSystem, m: Mention, active: set<Path>)
    requires Opens(env, fs, m) && m.path in fs.Keys - active
    ensures FileWalk(env, fs, m.path, m.key, m.expected, active).result.Ok? <==>
              && HasDigest(m, env.sha(fs[m.path].bytes)) && Parses(env, m.path, fs[m.path].bytes, m.key)
              && forall n | Refers(env, fs, m.path, m.key, n) :: AllFit(env, fs, n, active + {m.path})
    decreases fs.Keys - active, 0
  {
    var more, bytes := active + {m.path}, fs[m.path].bytes;
    var external, payload := env.external(m.path, bytes), env.json(bytes);
    if IsOnnx(env, m.path) && external.Some? {
      DataFits(env, fs, external.value, 0, m.key, more);
    }
    if IsManifestPath(env, m.path, m.key) && payload.Some? {
      ValueFits(env, fs, payload.value, m.key + ["manifest_content"], Some(Parent(m.path)), None, more);
    }
    if Parses(env, m.path, bytes, m.key) { RefersFit(env, fs, m.path, m.key, more); }
  }

  lemma RefersFit(env: Env, fs: FileSystem, path: Path, key: seq<string>, active: set<Path>)
    requires KindOf(fs, path).IsFile? && Parses(env, path, fs[path].bytes, key)
    ensures (forall n | Refers(env, fs, path, key, n) :: AllFit(env, fs, n, active)) <==>
              && (IsOnnx(env, path) ==> DataFit(env, fs, env.external(path, fs[path].bytes).value, 0, key, active))
              && (IsManifestPath(env, path, key) ==>
                    ValueFit(env, fs, env.json(fs[path].bytes).value, key + ["manifest_content"], Some(Parent(path)), None,
                             active))
  {
    var external := env.external(path, fs[path].bytes);
    if IsOnnx(env, path) {
      assert forall i | 0 <= i < |external.value| :: DataMentioned(external.value, key, DataOf(key, external.value[i], i));
    }
  }

  lemma DataFits(env: Env, fs: FileSystem, paths: seq<Path>, index: nat, key: seq<string>, active: set<Path>)
    requires index <= |paths|
    ensures PathsWalk(env, fs, paths, index, key, active).result.Ok? <==> DataFit(env, fs, paths, index, key, active)
    decreases fs.Keys - active, 3, |paths| - index
  {
    if index < |paths| {
      var m := DataOf(key, paths[index], index);
      AllFitMeans(env, fs, m, active);
      if KindOf(fs, paths[index]).IsFile? { PathFits(env, fs, m, active); }
      DataFits(env, fs, paths, index + 1, key, active);
      assert DataFit(env, fs, paths, index, key, active) <==>
             AllFit(env, fs, m, active) && DataFit(env, fs, paths, index + 1, key, active);
    }
  }

  lemma ValueFits(env: Env, fs: FileSystem, value: Value, key: seq<string>, base: Option<Path>, expected: Option<string>,
                  active: set<Path>)
    ensures ContentWalk(env, fs, value, key, base, expected, active).result.Ok? <==>
              ValueFit(env, fs, value, key, base, expected, active)
    decreases fs.Keys - active, 3, value
  {
    match value
    case Literal(_) =>
    case PathLike(text) =>
      var path := env.resolve(text, base);
      if path.Some? {
        var m := Mention(path.value, key, expected, AsPath);
        PathFits(env, fs, m, active);
        assert ValueFit(env, fs, value, key, base, expected, active) <==> AllFit(env, fs, m, active);
      }
    case Str(text) =>
      var path := env.resolve(text, base);
      if path.Some? {
        var m := Mention(path.value, key, expected, AsText);
        TextFits(env, fs, text, m, active);
        assert ValueFit(env, fs, value, key, base, expected, active) <==> AllFit(env, fs, m, active);
      }
    case Mapping(fields) => FieldsFit(env, fs, fields, fields, key, base, active);
    case List(items) => ItemsFit(env, fs, items, 0, key, base, active);
  }

  lemma TextFits(env: Env, fs: FileSystem, text: string, m: Mention, active: set<Path>)
    requires m.manner.AsText?
    ensures TextWalk(env, fs, text, m.key, Some(m.path), m.expected, active).result.Ok? <==> AllFit(env, fs, m, active)
    decreases fs.Keys - active, 2
  {
    AllFitMeans(env, fs, m, active);
    if !IsSdkField(env, m.key) && !IsOutputField(env, m.key)
       && (IsPathField(env, m.key) || !KindOf(fs, m.path).IsMissing?)
    {
      PathFits(env, fs, m, active);
    }
  }

  lemma FieldsFit(env: Env, fs: FileSystem, all: Fields, fields: Fields, key: seq<string>, base: Option<Path>,
                  active: set<Path>)
    ensures FieldsWalk(env, fs, all, fields, key, base, active).result.Ok? <==>
              && FieldsResolvable(env, fields, base)
              && forall m | FieldsMention(env, all, fields, key, base, m) :: AllFit(env, fs, m, active)
    decreases fs.Keys - active, 3, fields
  {
    match fields
    case NoFields =>
    case Field(name, value, more) =>
      ValueFits(env, fs, value, key + [name], base, ExpectedSha(env, all, name), active);
      FieldsFit(env, fs, all, more, key, base, active);
  }

  lemma ItemsFit(env: Env, fs: FileSystem, items: Items, index: nat, key: seq<string>, base: Option<Path>,
                 active: set<Path>)
    ensures ItemsWalk(env, fs, items, index, key, base, active).result.Ok? <==>
              && ItemsResolvable(env, items, base)
              && forall m | ItemsMention(env, items, index, key, base, m) :: AllFit(env, fs, m, active)
    decreases fs.Keys - active, 3, items
  {
    match items
    case NoItems =>
    case Item(value, more) =>
      ValueFits(env, fs, value, key + [Text.Decimal(index)], base, None, active);
      ItemsFit(env, fs, more, index + 1, key, base, active);
  }

  /**
   A configuration has an identity exactly when all it leads to can be read and has the digest stated beside its
   mention. Only a file that leads back to itself is not checked again there.
   */
  lemma IdentityExistsExactlyWhen(env: Env, fs: FileSystem, value: Value)
    ensures Identity(env, fs, value).result.Ok? <==>
              && Resolvable(env, value, None)
              && forall t, at | Reached(env, fs, value, t, at) :: Fits(env, fs, t, at)
  {
    ValueFits(env, fs, value, [], None, None, {});
    if forall t, at | Reached(env, fs, value, t, at) :: Fits(env, fs, t, at) {
      forall m, t, at | Mentions(env, value, [], None, None, m) && Reaches(env, fs, m, {}, t, at)
        ensures Fits(env, fs, t, at)
      {
        assert Reached(env, fs, value, t, at);
      }
    }
    if ValueFit(env, fs, value, [], None, None, {}) {
      forall t, at | Reached(env, fs, value, t, at) ensures Fits(env, fs, t, at) {
        var m :| Mentions(env, value, [], None, None, m) && Reaches(env, fs, m, {}, t, at);
      }
    }
  }

  /** So no file of a configuration with an identity contradicts the digest stated beside its mention. */
  lemma DigestsHold(env: Env, fs: FileSystem, value: Value, t: Mention, at: set<Path>)
    requires Identity(env, fs, value).result.Ok? && Reached(env, fs, value, t, at)
    requires Opens(env, fs, t) && t.path !in at && t.expected.Some?
    ensures env.sha(fs[t.path].bytes) == t.expected.value
  {
    IdentityExistsExactlyWhen(env, fs, value);
  }

  // ------------------------------------------------ what the identity says

  /** What a configuration says on a given disk: its words, and the places it names. */
  datatype Saying =
    | Bare(text: string)
    | Word(text: string)
    | Place(path: Path)
    | Table(fields: SaidFields)
    | Row(items: SaidItems)

  datatype SaidFields = NoSaidFields | SaidField(name: string, saying: Saying, rest: SaidFields)

  datatype SaidItems = NoSaidItems | SaidItem(saying: Saying, rest: SaidItems)

  /** A string names a place where one is looked for: a directory in an SDK field, else an existing path or a path field. */
  predicate NamesPlace(env: Env, fs: FileSystem, key: seq<string>, path: Path) {
    if IsSdkField(env, key) then KindOf(fs, path).IsDirectory?
    else !IsOutputField(env, key) && (IsPathField(env, key) || !KindOf(fs, path).IsMissing?)
  }

  function Says(env: Env, fs: FileSystem, value: Value, key: seq<string>, base: Option<Path>): Saying
    decreases value
  {
    match value
    case Literal(text) => Bare(text)
    case PathLike(text) =>
      (match env.resolve(text, base) case None => Word(text) case Some(path) => Place(path))
    case Str(text) =>
      var path := env.resolve(text, base);
      if path.Some? && NamesPlace(env, fs, key, path.value) then Place(path.value) else Word(text)
    case Mapping(fields) => Table(FieldsSay(env, fs, fields, key, base))
    case List(items) => Row(ItemsSay(env, fs, items, 0, key, base))
  }

  function FieldsSay(env: Env, fs: FileSystem, fields: Fields, key: seq<string>, base: Option<Path>): SaidFields
    decreases fields
  {
    match fields
    case NoFields => NoSaidFields
    case Field(name, value, more) =>
      SaidField(name, Says(env, fs, value, key + [name], base), FieldsSay(env, fs, more, key, base))
  }

  function ItemsSay(env: Env, fs: FileSystem, items: Items, index: nat, key: seq<string>, base: Option<Path>): SaidItems
    decreases items
  {
    match items
    case NoItems => NoSaidItems
    case Item(value, more) =>
      SaidItem(Says(env, fs, value, key + [Text.Decimal(index)], base), ItemsSay(env, fs, more, index + 1, key, base))
  }

  /** The place an identity speaks of. */
  function PlaceOf(ident: Ident): Option<Path> {
    match ident
    case OutputOnly(path) => Some(path)
    case MissingPath(path) => Some(path)
    case Cycle(path) => Some(path)
    case SdkDirectory(path) => Some(path)
    case DirectoryOf(path, _, _, _) => Some(path)
    case FileOf(path, _, _, _, _) => Some(path)
    case _ => None
  }

  lemma PathTells(env: Env, fs: FileSystem, path: Path, key: seq<string>, e1: Option<string>, e2: Option<string>)
    requires PathWalk(env, fs, path, key, e1, {}).result.Ok? && PathWalk(env, fs, path, key, e2, {}).result.Ok?
    ensures PathWalk(env, fs, path, key, e1, {}).result == PathWalk(env, fs, path, key, e2, {}).result
    ensures PlaceOf(PathWalk(env, fs, path, key, e1, {}).result.value) == Some(path)
  {
  }

  /** How an identity and what was said correspond at the top. */
  predicate Corresponds(ident: Ident, saying: Saying) {
    match saying
    case Bare(text) => ident == SameLiteral(text)
    case Word(text) => ident == SameText(text)
    case Place(path) => PlaceOf(ident) == Some(path)
    case Table(_) => ident.MappingOf?
    case Row(_) => ident.ListOf?
  }

  lemma IdentCorresponds(env: Env, fs: FileSystem, value: Value, key: seq<string>, e: Option<string>)
    requires ContentWalk(env, fs, value, key, None, e, {}).result.Ok?
    ensures Corresponds(ContentWalk(env, fs, value, key, None, e, {}).result.value, Says(env, fs, value, key, None))
  {
    match value
    case PathLike(text) => PathTells(env, fs, env.resolve(text, None).value, key, e, e);
    case Str(text) =>
      var path := env.resolve(text, None);
      if path.Some? && NamesPlace(env, fs, key, path.value) { PathTells(env, fs, path.value, key, e, e); }
    case _ =>
  }

  lemma LeafTells(env: Env, fs: FileSystem, a: Value, b: Value, key: seq<string>, ea: Option<string>, eb: Option<string>)
    requires !a.Mapping? && !a.List?
    requires ContentWalk(env, fs, a, key, None, ea, {}).result.Ok? && ContentWalk(env, fs, b, key, None, eb, {}).result.Ok?
    ensures ContentWalk(env, fs, a, key, None, ea, {}).result == ContentWalk(env, fs, b, key, None, eb, {}).result <==>
              Says(env, fs, a, key, None) == Says(env, fs, b, key, None)
  {
    IdentCorresponds(env, fs, a, key, ea);
    IdentCorresponds(env, fs, b, key, eb);
    var here, there := Says(env, fs, a, key, None), Says(env, fs, b, key, None);
    if here.Place? && here == there {
      PathTells(env, fs, here.path, key, ea, eb);
    }
  }

  lemma ValuesTell(env: Env, fs: FileSystem, a: Value, b: Value, key: seq<string>, ea: Option<string>, eb: Option<string>)
    requires ContentWalk(env, fs, a, key, None, ea, {}).result.Ok? && ContentWalk(env, fs, b, key, None, eb, {}).result.Ok?
    ensures ContentWalk(env, fs, a, key, None, ea, {}).result == ContentWalk(env, fs, b, key, None, eb, {}).result <==>
              Says(env, fs, a, key, None) == Says(env, fs, b, key, None)
    decreases a
  {
    if a.Mapping? && b.Mapping? {
      FieldsTell(env, fs, a.fields, a.fields, b.fields, b.fields, key);
    } else if a.List? && b.List? {
      ItemsTell(env, fs, a.items, b.items, 0, key);
    } else if !a.Mapping? && !a.List? {
      LeafTells(env, fs, a, b, key, ea, eb);
    } else {
      IdentCorresponds(env, fs, a, key, ea);
      IdentCorresponds(env, fs, b, key, eb);
    }
  }

  lemma FieldsTell(env: Env, fs: FileSystem, allA: Fields, a: Fields, allB: Fields, b: Fields, key: seq<string>)
    requires FieldsWalk(env, fs, allA, a, key, None, {}).result.Ok? && FieldsWalk(env, fs, allB, b, key, None, {}).result.Ok?
    ensures FieldsWalk(env, fs, allA, a, key, None, {}).result == FieldsWalk(env, fs, allB, b, key, None, {}).result <==>
              FieldsSay(env, fs, a, key, None) == FieldsSay(env, fs, b, key, None)
    decreases a
  {
    if a.Field? && b.Field? {
      var here, there := FieldsWalk(env, fs, allA, a, key, None, {}).result, FieldsWalk(env, fs, allB, b, key, None, {}).result;
      FieldsTell(env, fs, allA, a.rest, allB, b.rest, key);
      assert here == there ==> here.value[0].0 == there.value[0].0;
      if a.key == b.key {
        var ea, eb := ExpectedSha(env, allA, a.key), ExpectedSha(env, allB, a.key);
        ValuesTell(env, fs, a.value, b.value, key + [a.key], ea, eb);
        if here == there {
          ConsInjective((a.key, ContentWalk(env, fs, a.value, key + [a.key], None, ea, {}).result.value),
                        (a.key, ContentWalk(env, fs, b.value, key + [a.key], None, eb, {}).result.value),
                        FieldsWalk(env, fs, allA, a.rest, key, None, {}).result.value,
                        FieldsWalk(env, fs, allB, b.rest, key, None, {}).result.value);
        }
      }
    }
  }

  lemma ItemsTell(env: Env, fs: FileSystem, a: Items, b: Items, index: nat, key: seq<string>)
    requires ItemsWalk(env, fs, a, index, key, None, {}).result.Ok? && ItemsWalk(env, fs, b, index, key, None, {}).result.Ok?
    ensures ItemsWalk(env, fs, a, index, key, None, {}).result == ItemsWalk(env, fs, b, index, key, None, {}).result <==>
              ItemsSay(env, fs, a, index, key, None) == ItemsSay(env, fs, b, index, key, None)
    decreases a
  {
    if a.Item? && b.Item? {
      var inner := key + [Text.Decimal(index)];
      ItemsTell(env, fs, a.rest, b.rest, index + 1, key);
      ValuesTell(env, fs, a.value, b.value, inner, None, None);
      if ItemsWalk(env, fs, a, index, key, None, {}).result == ItemsWalk(env, fs, b, index, key, None, {}).result {
        ConsInjective(ContentWalk(env, fs, a.value, inner, None, None, {}).result.value,
                      ContentWalk(env, fs, b.value, inner, None, None, {}).result.value,
                      ItemsWalk(env, fs, a.rest, index + 1, key, None, {}).result.value,
                      ItemsWalk(env, fs, b.rest, index + 1, key, None, {}).result.value);
      }
    }
  }

  /**
   On one disk, two configurations have the same identity exactly when they say the same: alike mappings and lists, of
   the same words and of names of the same places.
   */
  lemma IdentityTellsConfigurationsApart(env: Env, fs: FileSystem, a: Value, b: Value)
    requires Identity(env, fs, a).result.Ok? && Identity(env, fs, b).result.Ok?
    ensures Identity(env, fs, a).result == Identity(env, fs, b).result <==>
              Says(env, fs, a, [], None) == Says(env, fs, b, [], None)
  {
    ValuesTell(env, fs, a, b, [], None, None);
  }
}
