/**
 * The loader behind the loot-table cache: identifier validation, the two
 * location strings, and the layered decision tree of `Loader.load`,
 * `loadLootTable` (the optional override folder) and `loadBuiltinLootTable`
 * (the bundled resources).
 *
 * The file system, the class path and Gson are abstract inputs collected in
 * an `Environment`: what each layer holds at a location, and what the
 * deserializer makes of a text.
 */
module LootTables {

  datatype Option<+T> = None | Some(value: T)

  /** A `ResourceLocation`: a namespace and a path, compared structurally. */
  datatype ResourceLocation = ResourceLocation(namespace: string, path: string)

  /**
   * A loot table. `EmptyLootTable` is the shared `EMPTY_LOOT_TABLE` singleton;
   * every other table is one the deserializer built, and `instance` stands
   * for the table its text describes (equal texts give equal tables). The
   * pools, entries, functions and conditions inside a table are not modelled.
   */
  datatype LootTable = EmptyLootTable | Deserialized(instance: nat)

  /** What the override folder holds at a location: `exists`, `isFile` and `Files.toString`. */
  datatype FileEntry = NoFile | Folder | FileUnreadable | FileText(text: string)

  /** What the class path holds at a location: `getResource` and `Resources.toString`. */
  datatype ResourceEntry = NoResource | ResourceUnreadable | ResourceText(text: string)

  /**
   * What the deserializer makes of a text: a table, no table at all
   * (the deserializer is nullable: a blank or `null` document), or one of the
   * two exceptions the loader distinguishes.
   */
  datatype Deserialization =
    | Parsed(instance: nat)
    | ParsedNull
    | JsonParseException
    | IllegalArgumentException

  /** The logger's severities used by the loader. */
  datatype Level = Debug | Warn | Error

  /**
   * The outcome of one loader step: `Null` (this layer has nothing, try the
   * next), a table together with the diagnostic logged on the way (if any),
   * or an exception escaping the step.
   */
  datatype Step = Null | Answer(table: LootTable, log: Option<Level>) | Throws

  /** The abstract world the loader reads: both layers and the deserializer. */
  datatype Environment = Environment(
    files: string -> FileEntry,
    resources: string -> ResourceEntry,
    gson: string -> Deserialization)

  /** A path containing a period names no loot table (`getPath().contains(".")`). */
  predicate IsInvalidName(loc: ResourceLocation)
    ensures IsInvalidName(loc) <==> exists k :: 0 <= k < |loc.path| && loc.path[k] == '.'
  {
    '.' in loc.path
  }

  /** Each of four concatenated strings is found again at its offset. */
  lemma FourParts(a: string, b: string, c: string, d: string)
    ensures var s := a + b + c + d;
      && |s| == |a| + |b| + |c| + |d|
      && s[..|a|] == a
      && s[|a|..|a| + |b|] == b
      && s[|a| + |b|..|a| + |b| + |c|] == c
      && s[|a| + |b| + |c|..] == d
  {
    var s := a + b + c + d;
    assert s == a + (b + (c + d));
    assert s[|a|..] == b + (c + d);
    assert s[|a| + |b|..] == c + d;
  }

  /**
   * `new File(new File(baseFolder, namespace), path + ".json")`, with `/` as
   * separator: a file inside the base folder, in the namespace's folder,
   * named after the path with `.json` appended.
   */
  function OverrideLocation(baseFolder: string, loc: ResourceLocation): (f: string)
    ensures |f| == |baseFolder| + |loc.namespace| + |loc.path| + 7
    ensures f[..|baseFolder| + 1] == baseFolder + "/"
    ensures f[|baseFolder| + 1..|baseFolder| + |loc.namespace| + 2] == loc.namespace + "/"
    ensures f[|baseFolder| + |loc.namespace| + 2..] == loc.path + ".json"
  {
    FourParts(baseFolder + "/", loc.namespace + "/", "", loc.path + ".json");
    baseFolder + "/" + loc.namespace + "/" + loc.path + ".json"
  }

  /**
   * The class-path resource name of a built-in loot table: under
   * `/assets/<namespace>/loot_tables/`, named after the path with `.json`
   * appended.
   */
  function BuiltinLocation(loc: ResourceLocation): (u: string)
    ensures |u| == |loc.namespace| + |loc.path| + 26
    ensures u[..8] == "/assets/"
    ensures u[8..|loc.namespace| + 9] == loc.namespace + "/"
    ensures u[|loc.namespace| + 9..|loc.namespace| + 21] == "loot_tables/"
    ensures u[|loc.namespace| + 21..] == loc.path + ".json"
  {
    FourParts("/assets/", loc.namespace + "/", "loot_tables/", loc.path + ".json");
    assert "/assets/" + loc.namespace + "/loot_tables/" + loc.path + ".json"
        == "/assets/" + (loc.namespace + "/") + "loot_tables/" + (loc.path + ".json");
    "/assets/" + loc.namespace + "/loot_tables/" + loc.path + ".json"
  }

  /**
   * `loadLootTable`: the override layer. It answers `Null` only when there is
   * no override folder, no entry at the location, or a text the deserializer
   * turns into no table; it never throws.
   */
  function LoadLootTable(baseFolder: Option<string>, env: Environment, loc: ResourceLocation): (r: Step)
    ensures r != Throws
    ensures r == Null <==>
      || baseFolder == None
      || env.files(OverrideLocation(baseFolder.value, loc)) == NoFile
      || (env.files(OverrideLocation(baseFolder.value, loc)).FileText? &&
          env.gson(env.files(OverrideLocation(baseFolder.value, loc)).text) == ParsedNull)
    ensures r.Answer? ==> (r.table == EmptyLootTable <==> r.log.Some?)
    ensures baseFolder.Some? ==>
      var e := env.files(OverrideLocation(baseFolder.value, loc));
      && (r == Answer(EmptyLootTable, Some(Warn)) <==> e == Folder || e == FileUnreadable)
      && (r == Answer(EmptyLootTable, Some(Error)) <==>
            e.FileText? && env.gson(e.text) in {JsonParseException, IllegalArgumentException})
      && (r.Answer? && r.table.Deserialized? <==> e.FileText? && env.gson(e.text).Parsed?)
      && (r.Answer? && r.table.Deserialized? ==> r.log == None && env.gson(e.text) == Parsed(r.table.instance))
    ensures r.Answer? ==> r.log != Some(Debug)
  {
    if baseFolder == None then Null
    else
      match env.files(OverrideLocation(baseFolder.value, loc))
      case NoFile => Null
      case Folder => Answer(EmptyLootTable, Some(Warn))
      case FileUnreadable => Answer(EmptyLootTable, Some(Warn))
      case FileText(s) =>
        match env.gson(s)
        case Parsed(i) => Answer(Deserialized(i), None)
        case ParsedNull => Null
        case JsonParseException => Answer(EmptyLootTable, Some(Error))
        case IllegalArgumentException => Answer(EmptyLootTable, Some(Error))
  }

  /**
   * `loadBuiltinLootTable`: the bundled layer. Unlike the override layer it
   * catches only `JsonParseException`, so an `IllegalArgumentException` from
   * the deserializer escapes.
   */
  function LoadBuiltinLootTable(env: Environment, loc: ResourceLocation): (r: Step)
    ensures r == Throws <==>
      env.resources(BuiltinLocation(loc)).ResourceText? &&
      env.gson(env.resources(BuiltinLocation(loc)).text) == IllegalArgumentException
    ensures r == Null <==>
      || env.resources(BuiltinLocation(loc)) == NoResource
      || (env.resources(BuiltinLocation(loc)).ResourceText? &&
          env.gson(env.resources(BuiltinLocation(loc)).text) == ParsedNull)
    ensures r.Answer? ==> (r.table == EmptyLootTable <==> r.log.Some?)
    ensures
      var e := env.resources(BuiltinLocation(loc));
      && (r == Answer(EmptyLootTable, Some(Warn)) <==> e == ResourceUnreadable)
      && (r == Answer(EmptyLootTable, Some(Error)) <==> e.ResourceText? && env.gson(e.text) == JsonParseException)
      && (r.Answer? && r.table.Deserialized? <==> e.ResourceText? && env.gson(e.text).Parsed?)
      && (r.Answer? && r.table.Deserialized? ==> r.log == None && env.gson(e.text) == Parsed(r.table.instance))
    ensures r.Answer? ==> r.log != Some(Debug)
  {
    match env.resources(BuiltinLocation(loc))
    case NoResource => Null
    case ResourceUnreadable => Answer(EmptyLootTable, Some(Warn))
    case ResourceText(s) =>
      match env.gson(s)
      case Parsed(i) => Answer(Deserialized(i), None)
      case ParsedNull => Null
      case JsonParseException => Answer(EmptyLootTable, Some(Error))
      case IllegalArgumentException => Throws
  }

  /**
   * `Loader.load`: validate the name, try the override layer, then the
   * bundled layer, and fall back to the empty table. It never yields `Null`;
   * it throws exactly when the bundled layer is reached and throws; the empty
   * table comes back exactly when a diagnostic is logged, and the debug
   * severity exactly for an invalid name.
   */
  function Load(baseFolder: Option<string>, env: Environment, loc: ResourceLocation): (r: Step)
    ensures r != Null
    ensures r == Throws <==>
      !IsInvalidName(loc) && LoadLootTable(baseFolder, env, loc) == Null &&
      LoadBuiltinLootTable(env, loc) == Throws
    ensures r.Answer? ==> (r.table == EmptyLootTable <==> r.log.Some?)
    ensures r.Answer? ==> (r.log == Some(Debug) <==> IsInvalidName(loc))
  {
    if IsInvalidName(loc) then
      Answer(EmptyLootTable, Some(Debug))
    else
      var overridden := LoadLootTable(baseFolder, env, loc);
      var table := if overridden == Null then LoadBuiltinLootTable(env, loc) else overridden;
      if table == Null then Answer(EmptyLootTable, Some(Warn)) else table
  }

  // ---------------------------------------------------------------------
  // Properties of the loader
  // ---------------------------------------------------------------------

  /** Two environments that agree on the layers `Load` reads for `loc` give the same result. */
  ghost predicate SameOverride(baseFolder: Option<string>, e1: Environment, e2: Environment, loc: ResourceLocation)
  {
    baseFolder.Some? ==>
      var f := OverrideLocation(baseFolder.value, loc);
      e1.files(f) == e2.files(f) && (e1.files(f).FileText? ==> e1.gson(e1.files(f).text) == e2.gson(e1.files(f).text))
  }

  ghost predicate SameBuiltin(e1: Environment, e2: Environment, loc: ResourceLocation)
  {
    var u := BuiltinLocation(loc);
    e1.resources(u) == e2.resources(u) &&
    (e1.resources(u).ResourceText? ==> e1.gson(e1.resources(u).text) == e2.gson(e1.resources(u).text))
  }

  /** An invalid name is answered with the empty table whatever either layer holds. */
  lemma InvalidNameSkipsLayers(baseFolder: Option<string>, e1: Environment, e2: Environment, loc: ResourceLocation)
    requires IsInvalidName(loc)
    ensures Load(baseFolder, e1, loc) == Answer(EmptyLootTable, Some(Debug))
    ensures Load(baseFolder, e1, loc) == Load(baseFolder, e2, loc)
  {
  }

  /** A readable override file that parses wins, and the bundled layer is not consulted. */
  lemma OverridePrecedence(baseFolder: string, e1: Environment, e2: Environment, loc: ResourceLocation, i: nat)
    requires !IsInvalidName(loc)
    requires e1.files(OverrideLocation(baseFolder, loc)).FileText?
    requires e1.gson(e1.files(OverrideLocation(baseFolder, loc)).text) == Parsed(i)
    requires SameOverride(Some(baseFolder), e1, e2, loc)
    ensures Load(Some(baseFolder), e1, loc) == Answer(Deserialized(i), None)
    ensures Load(Some(baseFolder), e2, loc) == Load(Some(baseFolder), e1, loc)
  {
  }

  /**
   * The bundled layer is consulted only when the override step answers
   * `Null`: otherwise the override step's answer is the result, and the
   * result is the same in every environment with the same override layer.
   */
  lemma BuiltinOnlyAfterNull(baseFolder: Option<string>, e1: Environment, e2: Environment, loc: ResourceLocation)
    requires !IsInvalidName(loc)
    requires SameOverride(baseFolder, e1, e2, loc)
    ensures LoadLootTable(baseFolder, e1, loc) == LoadLootTable(baseFolder, e2, loc)
    ensures LoadLootTable(baseFolder, e1, loc) != Null ==>
      Load(baseFolder, e1, loc) == LoadLootTable(baseFolder, e1, loc) == Load(baseFolder, e2, loc)
    ensures LoadLootTable(baseFolder, e1, loc) == Null ==>
      Load(baseFolder, e1, loc) ==
        (if LoadBuiltinLootTable(e1, loc) == Null then Answer(EmptyLootTable, Some(Warn))
         else LoadBuiltinLootTable(e1, loc))
  {
  }

  /**
   * No fall-through: an override entry that is a folder, cannot be read, or
   * fails to parse masks the bundled layer, whatever it holds.
   */
  lemma OverrideFailureMasksBuiltin(baseFolder: string, env: Environment, loc: ResourceLocation)
    requires !IsInvalidName(loc)
    requires
      var entry := env.files(OverrideLocation(baseFolder, loc));
      || entry == Folder
      || entry == FileUnreadable
      || (entry.FileText? && env.gson(entry.text) in {JsonParseException, IllegalArgumentException})
    ensures Load(Some(baseFolder), env, loc).Answer?
    ensures Load(Some(baseFolder), env, loc).table == EmptyLootTable
    ensures env.files(OverrideLocation(baseFolder, loc)) in {Folder, FileUnreadable} ==>
      Load(Some(baseFolder), env, loc) == Answer(EmptyLootTable, Some(Warn))
    ensures env.files(OverrideLocation(baseFolder, loc)).FileText? ==>
      Load(Some(baseFolder), env, loc) == Answer(EmptyLootTable, Some(Error))
    ensures forall e2: Environment :: SameOverride(Some(baseFolder), env, e2, loc) ==>
      Load(Some(baseFolder), e2, loc) == Load(Some(baseFolder), env, loc)
  {
  }

  /** Without an override folder the result depends on the bundled layer only. */
  lemma NoBaseFolderUsesBuiltinOnly(e1: Environment, e2: Environment, loc: ResourceLocation)
    requires SameBuiltin(e1, e2, loc)
    ensures LoadLootTable(None, e1, loc) == Null
    ensures Load(None, e1, loc) == Load(None, e2, loc)
  {
  }

  /**
   * The normal fall-back: when the override step gives `Null`, a bundled
   * resource that parses gives its table without a diagnostic, the same in
   * every environment with the same override and bundled layers.
   */
  lemma BuiltinFallback(baseFolder: Option<string>, e1: Environment, e2: Environment, loc: ResourceLocation, i: nat)
    requires !IsInvalidName(loc)
    requires LoadLootTable(baseFolder, e1, loc) == Null
    requires e1.resources(BuiltinLocation(loc)).ResourceText?
    requires e1.gson(e1.resources(BuiltinLocation(loc)).text) == Parsed(i)
    requires SameOverride(baseFolder, e1, e2, loc) && SameBuiltin(e1, e2, loc)
    ensures Load(baseFolder, e1, loc) == Answer(Deserialized(i), None)
    ensures Load(baseFolder, e2, loc) == Load(baseFolder, e1, loc)
  {
    BuiltinOnlyAfterNull(baseFolder, e1, e2, loc);
  }

  /**
   * When the override step gives `Null`, an unreadable bundled resource gives
   * the empty table with a warning, and one that fails to parse with a
   * `JsonParseException` gives the empty table with an error.
   */
  lemma BuiltinFailureYieldsEmpty(baseFolder: Option<string>, env: Environment, loc: ResourceLocation)
    requires !IsInvalidName(loc)
    requires LoadLootTable(baseFolder, env, loc) == Null
    requires
      var e := env.resources(BuiltinLocation(loc));
      e == ResourceUnreadable || (e.ResourceText? && env.gson(e.text) == JsonParseException)
    ensures env.resources(BuiltinLocation(loc)) == ResourceUnreadable ==>
      Load(baseFolder, env, loc) == Answer(EmptyLootTable, Some(Warn))
    ensures env.resources(BuiltinLocation(loc)).ResourceText? ==>
      Load(baseFolder, env, loc) == Answer(EmptyLootTable, Some(Error))
  {
  }

  /** A valid name found in neither layer is answered with the empty table and a warning. */
  lemma AbsentEverywhere(baseFolder: Option<string>, env: Environment, loc: ResourceLocation)
    requires !IsInvalidName(loc)
    requires baseFolder.Some? ==> env.files(OverrideLocation(baseFolder.value, loc)) == NoFile
    requires env.resources(BuiltinLocation(loc)) == NoResource
    ensures Load(baseFolder, env, loc) == Answer(EmptyLootTable, Some(Warn))
  {
  }

  /**
   * Every deserialized table `Load` returns was parsed from the text of the
   * layer that answered: the override file, or, when the override step gave
   * `Null`, the bundled resource.
   */
  lemma Provenance(baseFolder: Option<string>, env: Environment, loc: ResourceLocation, i: nat)
    requires Load(baseFolder, env, loc) == Answer(Deserialized(i), None)
    ensures !IsInvalidName(loc)
    ensures
      || (baseFolder.Some? &&
          env.files(OverrideLocation(baseFolder.value, loc)).FileText? &&
          env.gson(env.files(OverrideLocation(baseFolder.value, loc)).text) == Parsed(i))
      || (LoadLootTable(baseFolder, env, loc) == Null &&
          env.resources(BuiltinLocation(loc)).ResourceText? &&
          env.gson(env.resources(BuiltinLocation(loc)).text) == Parsed(i))
  {
  }

  /**
   * An override file the deserializer turns into no table does not mask the
   * bundled layer: the load goes on to the bundled resource.
   */
  lemma NullOverrideFallsThrough(baseFolder: string, env: Environment, loc: ResourceLocation)
    requires !IsInvalidName(loc)
    requires env.files(OverrideLocation(baseFolder, loc)).FileText?
    requires env.gson(env.files(OverrideLocation(baseFolder, loc)).text) == ParsedNull
    ensures Load(Some(baseFolder), env, loc) == Load(None, env, loc)
  {
  }

  // ---------------------------------------------------------------------
  // Properties of the location strings
  // ---------------------------------------------------------------------

  /** In `a + "/" + b` with no `/` in `a`, the first `/` stands at index `|a|`. */
  lemma FirstSlash(a: string, b: string)
    requires '/' !in a
    ensures (a + "/" + b)[|a|] == '/'
    ensures forall k :: 0 <= k < |a| ==> (a + "/" + b)[k] != '/'
  {
  }

  /** A separator-free prefix is recovered from `a + "/" + b`. */
  lemma {:induction false} SplitAtFirstSlash(a: string, b: string, c: string, d: string)
    requires '/' !in a && '/' !in c
    requires a + "/" + b == c + "/" + d
    ensures a == c && b == d
  {
    var s := a + "/" + b;
    FirstSlash(a, b);
    FirstSlash(c, d);
    assert |a| == |c|;
    assert a == s[..|a|] == c;
    assert b == s[|a| + 1..] == d;
  }

  /** Equal prefixes can be cut off. */
  lemma {:induction false} StripPrefix(t: string, a: string, b: string)
    requires t + a == t + b
    ensures a == b
  {
    var s := t + a;
    assert a == s[|t|..] == b;
  }

  /** Equal suffixes can be cut off. */
  lemma {:induction false} StripSuffix(a: string, b: string, t: string)
    requires a + t == b + t
    ensures a == b
  {
    var s := a + t;
    assert a == s[..|s| - |t|] == b;
  }

  /**
   * Distinct identifiers whose namespaces contain no `/` are read from
   * distinct override files.
   */
  lemma {:induction false} OverrideLocationInjective(baseFolder: string, x: ResourceLocation, y: ResourceLocation)
    requires '/' !in x.namespace && '/' !in y.namespace
    requires OverrideLocation(baseFolder, x) == OverrideLocation(baseFolder, y)
    ensures x == y
  {
    var rx := x.path + ".json";
    var ry := y.path + ".json";
    assert OverrideLocation(baseFolder, x) == (baseFolder + "/") + (x.namespace + "/" + rx);
    assert OverrideLocation(baseFolder, y) == (baseFolder + "/") + (y.namespace + "/" + ry);
    StripPrefix(baseFolder + "/", x.namespace + "/" + rx, y.namespace + "/" + ry);
    SplitAtFirstSlash(x.namespace, rx, y.namespace, ry);
    StripSuffix(x.path, y.path, ".json");
  }

  /** `BuiltinLocation` regrouped to the right, the shape its injectivity proof splits. */
  lemma BuiltinAssociated(loc: ResourceLocation)
    ensures BuiltinLocation(loc) == "/assets/" + (loc.namespace + "/" + ("loot_tables/" + (loc.path + ".json")))
  {
  }

  /** The strings of two bundled resource names agree only for equal parts. */
  lemma {:induction false} BuiltinPartsInjective(nx: string, px: string, ny: string, py: string)
    requires '/' !in nx && '/' !in ny
    requires "/assets/" + (nx + "/" + ("loot_tables/" + (px + ".json")))
          == "/assets/" + (ny + "/" + ("loot_tables/" + (py + ".json")))
    ensures nx == ny && px == py
  {
    StripPrefix("/assets/", nx + "/" + ("loot_tables/" + (px + ".json")), ny + "/" + ("loot_tables/" + (py + ".json")));
    SplitAtFirstSlash(nx, "loot_tables/" + (px + ".json"), ny, "loot_tables/" + (py + ".json"));
    StripPrefix("loot_tables/", px + ".json", py + ".json");
    StripSuffix(px, py, ".json");
  }

  /**
   * Distinct identifiers whose namespaces contain no `/` are read from
   * distinct bundled resources.
   */
  lemma {:induction false} BuiltinLocationInjective(x: ResourceLocation, y: ResourceLocation)
    requires '/' !in x.namespace && '/' !in y.namespace
    requires BuiltinLocation(x) == BuiltinLocation(y)
    ensures x == y
  {
    BuiltinAssociated(x);
    BuiltinAssociated(y);
    BuiltinPartsInjective(x.namespace, x.path, y.namespace, y.path);
  }

  /**
   * Without the separator-free namespaces the two lemmas above assume,
   * distinct identifiers can share a location.
   */
  lemma SlashInNamespaceCollides(baseFolder: string, n: string, m: string, p: string)
    ensures ResourceLocation(n + "/" + m, p) != ResourceLocation(n, m + "/" + p)
    ensures OverrideLocation(baseFolder, ResourceLocation(n + "/" + m, p))
         == OverrideLocation(baseFolder, ResourceLocation(n, m + "/" + p))
    ensures BuiltinLocation(ResourceLocation(n + "/loot_tables/" + m, p))
         == BuiltinLocation(ResourceLocation(n, m + "/loot_tables/" + p))
  {
    var q := "/loot_tables/";
    assert |n + "/" + m| != |n|;
    assert OverrideLocation(baseFolder, ResourceLocation(n + "/" + m, p))
        == baseFolder + "/" + (n + "/" + m) + "/" + p + ".json"
        == baseFolder + "/" + n + "/" + (m + "/" + p) + ".json"
        == OverrideLocation(baseFolder, ResourceLocation(n, m + "/" + p));
    assert BuiltinLocation(ResourceLocation(n + q + m, p))
        == "/assets/" + (n + q + m) + q + p + ".json"
        == "/assets/" + n + q + (m + q + p) + ".json"
        == BuiltinLocation(ResourceLocation(n, m + q + p));
  }

}
