# LootTableManager, modelled in Dafny

This project models the loot-table manager of a Minecraft 1.12.2 code base:
`net.minecraft.world.storage.loot.LootTableManager`. The manager is a loading cache. It maps a
`ResourceLocation` (a namespace and a path) to a `LootTable`. On a miss it runs a loader with
two layers:

- the optional override folder (`baseFolder`), read first;
- the loot tables bundled on the class path under `/assets/<namespace>/loot_tables/`, read
  second.

The loader never hands back `null`. Every failure it catches becomes the shared
`EMPTY_LOOT_TABLE`. A reload empties the cache, then loads every known table again.

The model has two modules.

- `LootTables` (`loot_tables.dfy`) has the data model and the two location strings
  (`OverrideLocation`, `BuiltinLocation`). It also has the loader as pure functions:
  `LoadLootTable` for the override layer, `LoadBuiltinLootTable` for the bundled layer, and
  `Load` for `Loader.load`. Lemmas state precedence, masking, validation and provenance, and
  that each location string determines its identifier.
- `LootTableManagers` (`loot_table_manager.dfy`) has the cache. `GetUnchecked`, `Populate` and
  `Reload` state, as functions on the cache contents, what Guava's `getUnchecked`, the reload
  loop and `reloadLootTables` do. The class `LootTableManager` keeps a
  `map<ResourceLocation, LootTable>` field and updates it in place. Each of its methods is
  proved to follow those functions. A ghost history `loaded` records the keys whose load stored
  a table since the last `invalidateAll`.

The file system, the class path and Gson are abstract inputs of type `Environment`:

- `files` gives what the override folder holds at a path: no file, a folder, an unreadable
  file, or a text;
- `resources` gives what the class path holds at a resource name: nothing, an unreadable
  resource, or a text;
- `gson` gives what the deserializer makes of a text: a new table, no table, a
  `JsonParseException` or an `IllegalArgumentException`.

Each cache operation takes the current `Environment` as a parameter, so the layers may change
between calls. Each loader step returns a `Step`: `Null`, `Answer(table, log)` or `Throws`.
This mirrors the Java return of "a table, or null, or an exception". `log` is the severity of
the one diagnostic the step logged, if it logged one.

Two behaviours of the code are easy to overlook:

- `load` is not total. The bundled layer catches only `JsonParseException`
  (LootTableManager.java:158). So an `IllegalArgumentException` from parsing a bundled table
  escapes `load`. `getUnchecked` then passes it on and caches nothing
  (modelled as `Threw`). The reload loop stops at that key, and the constructor throws. `Load`
  states exactly when this happens.
- An override text that the deserializer turns into no table does not mask the bundled layer.
  The override step returns what the deserializer returns (line 114), and the deserializer may
  return no table at all (Gson does this for a blank or `null` document). That `null` makes
  `load` go on to the bundled layer (line 70). `NullOverrideFallsThrough` states this.

The two location strings determine their identifier only when namespaces contain no `/`.
`SlashInNamespaceCollides` gives two identifiers that share a location otherwise. Nothing in
LootTableManager.java rules out such a namespace.

## Model

| member | source | states |
|---|---|---|
| `LootTables.IsInvalidName` | src/main/java/net/minecraft/world/storage/loot/LootTableManager.java:61 | A name is invalid exactly when some character of its path is a period. |
| `LootTables.OverrideLocation` | src/main/java/net/minecraft/world/storage/loot/LootTableManager.java:94 | The override file lies in the base folder, in the namespace's folder, and is named after the path with `.json` appended. |
| `LootTables.BuiltinLocation` | src/main/java/net/minecraft/world/storage/loot/LootTableManager.java:138 | The bundled resource lies under `/assets/`, in the namespace's folder, under `loot_tables/`, and is named after the path with `.json` appended. |
| `LootTables.LoadLootTable` | src/main/java/net/minecraft/world/storage/loot/LootTableManager.java:86-133 | The override step never throws. It gives `Null` exactly when there is no folder, no entry, or a text the deserializer turns into no table. A folder or an unreadable file gives the empty table with a warning. A text that fails to parse (either exception) gives the empty table with an error. A text that parses gives exactly the parsed table with no diagnostic. |
| `LootTables.LoadBuiltinLootTable` | src/main/java/net/minecraft/world/storage/loot/LootTableManager.java:136-168 | The bundled step throws exactly when its resource text raises `IllegalArgumentException`. It gives `Null` exactly when there is no resource, or the text becomes no table. An unreadable resource gives the empty table with a warning. A `JsonParseException` gives the empty table with an error. A text that parses gives exactly the parsed table with no diagnostic. |
| `LootTables.Load` | src/main/java/net/minecraft/world/storage/loot/LootTableManager.java:59-83 | `load` never returns null. It throws exactly when the name is valid, the override step gave `Null` and the bundled step throws. It returns the empty table exactly when a diagnostic is logged, and logs at debug severity exactly for an invalid name. |
| `LootTables.InvalidNameSkipsLayers` | src/main/java/net/minecraft/world/storage/loot/LootTableManager.java:61-65 | A path containing a period yields the empty table with a debug message, the same in every environment, so neither layer is read. |
| `LootTables.OverridePrecedence` | src/main/java/net/minecraft/world/storage/loot/LootTableManager.java:68-114 | A readable override file that parses gives its table and logs nothing. Any environment with the same override layer gives the same result, so the bundled layer is not read. |
| `LootTables.BuiltinOnlyAfterNull` | src/main/java/net/minecraft/world/storage/loot/LootTableManager.java:68-79 | When the override step answers, its answer is the result, whatever the bundled layer holds. When it gives `Null`, the result is the bundled step's answer, or the empty table with a warning if that step also gives `Null`. |
| `LootTables.OverrideFailureMasksBuiltin` | src/main/java/net/minecraft/world/storage/loot/LootTableManager.java:96-126 | An override entry that is a folder or cannot be read yields the empty table with a warning. One that fails to parse yields the empty table with an error. This holds in every environment with the same override layer, even one whose bundled table would load. |
| `LootTables.NoBaseFolderUsesBuiltinOnly` | src/main/java/net/minecraft/world/storage/loot/LootTableManager.java:88-91 | Without an override folder, the override step gives `Null`. The result then depends only on the bundled layer and the deserializer. |
| `LootTables.BuiltinFallback` | src/main/java/net/minecraft/world/storage/loot/LootTableManager.java:68-73 | When the override step gives `Null`, a bundled resource that parses gives its table with no diagnostic. The result is the same in every environment with the same two layers. |
| `LootTables.BuiltinFailureYieldsEmpty` | src/main/java/net/minecraft/world/storage/loot/LootTableManager.java:144-162 | When the override step gives `Null`, an unreadable bundled resource gives the empty table with a warning, and a `JsonParseException` gives the empty table with an error. |
| `LootTables.AbsentEverywhere` | src/main/java/net/minecraft/world/storage/loot/LootTableManager.java:75-81 | A valid name found in neither layer yields the empty table with a warning, never `null`. |
| `LootTables.Provenance` | src/main/java/net/minecraft/world/storage/loot/LootTableManager.java:68-81 | A deserialized table that `load` returns was parsed from the override file's text. Otherwise the override step gave `Null` and the table was parsed from the bundled resource's text. |
| `LootTables.NullOverrideFallsThrough` | src/main/java/net/minecraft/world/storage/loot/LootTableManager.java:112-114 | An override text that the deserializer turns into no table does not mask the bundled layer. The result is what it would be with no override folder at all. |
| `LootTables.OverrideLocationInjective` | src/main/java/net/minecraft/world/storage/loot/LootTableManager.java:94 | The override file `baseFolder/namespace/path.json` determines the identifier when namespaces hold no `/`, so distinct identifiers read distinct files. |
| `LootTables.BuiltinLocationInjective` | src/main/java/net/minecraft/world/storage/loot/LootTableManager.java:138 | The resource `/assets/namespace/loot_tables/path.json` determines the identifier when namespaces hold no `/`. |
| `LootTables.SlashInNamespaceCollides` | src/main/java/net/minecraft/world/storage/loot/LootTableManager.java:94 | For any strings `n`, `m`, `p`, the distinct identifiers `(n/m, p)` and `(n, m/p)` share an override file. Likewise `(n/loot_tables/m, p)` and `(n, m/loot_tables/p)` share a bundled resource (line 138). So the injectivity lemmas need their hypothesis. |
| `LootTableManagers.Loaded` | src/main/java/net/minecraft/world/storage/loot/LootTableManager.java:38-41 | The cache loader's outcome for a missing key: `Threw` exactly when `load` throws (the exception is passed on by `getUnchecked`), and otherwise the table `load` returns. |
| `LootTableManagers.GetUnchecked` | src/main/java/net/minecraft/world/storage/loot/LootTableManager.java:29-41 | A hit returns the cached table, does not run the loader, and leaves the cache unchanged. A miss runs the loader and caches what it returns under that key only. A thrown load is passed on and nothing is cached. No other entry changes. |
| `LootTableManagers.GetUncheckedMemoizes` | src/main/java/net/minecraft/world/storage/loot/LootTableManager.java:38-41 | Right after a lookup that returned a table, a second lookup for the same key returns the same table in every environment. It does not run the loader and does not change the cache. |
| `LootTableManagers.GetUncheckedTransparent` | src/main/java/net/minecraft/world/storage/loot/LootTableManager.java:38-41 | While every cached table is what the loader computes from the current layers, a lookup returns what the loader computes, and the cache keeps agreeing with the layers. |
| `LootTableManagers.Populate` | src/main/java/net/minecraft/world/storage/loot/LootTableManager.java:47-50 | The reload loop only adds to the history of stored loads, by at most one entry per known key visited. |
| `LootTableManagers.Reload` | src/main/java/net/minecraft/world/storage/loot/LootTableManager.java:43-51 | After a reload, every cached key is a known key, so nothing cached before it survives. At most as many loads as known keys are recorded. |
| `LootTableManagers.PopulateKeys` | src/main/java/net/minecraft/world/storage/loot/LootTableManager.java:47-50 | The reload loop keeps every cached entry and adds only known keys. It stops early exactly when some known key was not cached and its load throws. When it finishes, every known key is cached. |
| `LootTableManagers.PopulateAgrees` | src/main/java/net/minecraft/world/storage/loot/LootTableManager.java:47-50 | The reload loop, started on a cache that agrees with the layers, leaves a cache that agrees with them. |
| `LootTableManagers.PopulateLoadsOnce` | src/main/java/net/minecraft/world/storage/loot/LootTableManager.java:47-50 | The history of loads that stored a table names each cached key exactly once, so no key is loaded twice. |
| `LootTableManagers.ReloadSpec` | src/main/java/net/minecraft/world/storage/loot/LootTableManager.java:43-51 | After a reload, nothing cached before it survives. Only known keys are cached, each with the loader's value from the current layers, and each was loaded once. The reload completes exactly when no known key's load throws, and then every known key is cached. |
| `LootTableManagers.LootTableManager.constructor` | src/main/java/net/minecraft/world/storage/loot/LootTableManager.java:29-34 | The field initialisers: the given override folder and an empty cache. |
| `LootTableManagers.LootTableManager.Create` | src/main/java/net/minecraft/world/storage/loot/LootTableManager.java:32-36 | Construction ends with a reload. The result is `null` (the constructor threw) exactly when that reload does not complete. Otherwise the cache holds every known key, with the loader's values. |
| `LootTableManagers.LootTableManager.GetLootTableFromLocation` | src/main/java/net/minecraft/world/storage/loot/LootTableManager.java:38-41 | The outcome and the new cache are those of `GetUnchecked`. The load history grows by this key only when a table was loaded and stored. Agreement with unchanged layers is kept. |
| `LootTableManagers.LootTableManager.InvalidateAll` | src/main/java/net/minecraft/world/storage/loot/LootTableManager.java:45 | Every entry and the load history are discarded. |
| `LootTableManagers.LootTableManager.ReloadLootTables` | src/main/java/net/minecraft/world/storage/loot/LootTableManager.java:43-51 | The new cache, load history and completion flag are those of `Reload`. So only known keys are cached, all with the loader's current values, and all known keys are cached when the reload completes. |

## Left out

- Real file and class-path I/O (`File.exists`, `isFile`, `Files.toString`, `getResource`,
  `Resources.toString`). These are the abstract `files` and `resources` functions of an
  `Environment`.
- Gson, its registered type adapters and the inner structure of a loot table (pools, entries,
  functions, conditions). The deserializer is the abstract function `gson`. A loot table is
  either the empty sentinel or a deserialized table, given by a number that stands for the
  table the text describes. Equal texts give equal tables.
- Reference identity of tables loaded separately. Java builds a fresh `LootTable` on each
  deserialization. In the model, two loads of equal texts, for two keys or before and after a
  reload, give equal values. That one lookup is served from the cache and does not reload is
  carried by `ranLoader` and the `loaded` history instead.
- Runtime exceptions from the deserializer other than `JsonParseException` and
  `IllegalArgumentException`. The model does not have them.
- File path normalisation done by `java.io.File`: platform separators, absolute children,
  repeated separators. The override location is built as a string with `/` separators.
- Logging: message texts and their arguments are left out. Only each diagnostic's severity is
  kept.
- Concurrency and Guava's single-flight loading. The model is sequential. A load that throws
  is wrapped by Guava in `UncheckedExecutionException`; the model writes it as `Threw`.
- The contents of `LootTableList.getAll()`, defined in another file. They are the parameter
  `known` of the reload.
- `ResourceLocation`'s own construction rules (lower-casing, the default namespace). They are
  defined in another file, which is not part of this model.
- An exception escaping the constructor. A Java constructor that throws produces no object, and a Dafny
  constructor cannot report an exception. So the constructor is modelled as a plain
  constructor (the field initialisers) plus a static method that runs the reload and returns
  `null` when it throws.
