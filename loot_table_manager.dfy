/**
 * The `LootTableManager` façade: a loading cache from `ResourceLocation` to
 * `LootTable` filled on a miss by `LootTables.Load`, emptied by
 * `invalidateAll`, and repopulated eagerly from the list of known tables.
 *
 * The cache's behaviour is first given as functions on its contents
 * (`GetUnchecked`, `Populate`, `Reload`); the class `LootTableManager`
 * updates a `map` field in place and is proved to follow them.
 */
module LootTableManagers {
  import opened LootTables

  /** What `getUnchecked` hands back: a table, or the exception the loader threw. */
  datatype Outcome = Returned(table: LootTable) | Threw

  /** One `getUnchecked` call: its outcome, the cache contents after it, and whether the loader ran. */
  datatype Fetch = Fetch(result: Outcome, entries: map<ResourceLocation, LootTable>, ranLoader: bool)

  /**
   * The outcome of running the loader for a key that is not cached: the
   * table `load` returns, or `Threw` for the exception it lets escape.
   */
  function Loaded(baseFolder: Option<string>, env: Environment, loc: ResourceLocation): (r: Outcome)
    ensures r == Threw <==> Load(baseFolder, env, loc) == Throws
    ensures r.Returned? ==> Load(baseFolder, env, loc).Answer? && Load(baseFolder, env, loc).table == r.table
  {
    var s := Load(baseFolder, env, loc);
    if s.Answer? then Returned(s.table) else Threw
  }

  /**
   * `registeredLootTables.getUnchecked(loc)`: a hit returns the cached table
   * and changes nothing; a miss runs the loader once and caches what it
   * returns; an exception from the loader is passed on and nothing is cached.
   */
  function GetUnchecked(baseFolder: Option<string>, env: Environment,
                        entries: map<ResourceLocation, LootTable>, loc: ResourceLocation): (r: Fetch)
    ensures r.ranLoader <==> loc !in entries
    ensures loc in entries ==> r.result == Returned(entries[loc]) && r.entries == entries
    ensures loc !in entries ==> r.result == Loaded(baseFolder, env, loc)
    ensures r.result.Returned? ==> loc in r.entries && r.entries[loc] == r.result.table
    ensures r.entries.Keys == entries.Keys + (if r.result.Returned? then {loc} else {})
    ensures forall k :: k in entries ==> k in r.entries && r.entries[k] == entries[k]
  {
    if loc in entries then Fetch(Returned(entries[loc]), entries, false)
    else
      var o := Loaded(baseFolder, env, loc);
      if o.Returned? then Fetch(o, entries[loc := o.table], true) else Fetch(o, entries, true)
  }

  /** Every cached table is the one the loader computes from `env`. */
  ghost predicate Agrees(baseFolder: Option<string>, env: Environment, entries: map<ResourceLocation, LootTable>)
  {
    forall k :: k in entries ==> Loaded(baseFolder, env, k) == Returned(entries[k])
  }

  /** No key occurs twice. */
  ghost predicate Distinct(s: seq<ResourceLocation>)
  {
    forall i, j :: 0 <= i < j < |s| ==> s[i] != s[j]
  }

  /**
   * Memoization: right after a call that returned a table, a second call for
   * the same key returns the same table without running the loader and
   * without changing the cache, whatever the layers hold by then.
   */
  lemma GetUncheckedMemoizes(baseFolder: Option<string>, env: Environment, env2: Environment,
                             entries: map<ResourceLocation, LootTable>, loc: ResourceLocation)
    requires GetUnchecked(baseFolder, env, entries, loc).result.Returned?
    ensures var first := GetUnchecked(baseFolder, env, entries, loc);
      GetUnchecked(baseFolder, env2, first.entries, loc) == Fetch(first.result, first.entries, false)
  {
  }

  /**
   * While the layers do not change, the cache is transparent: every lookup
   * gives what the loader computes from the current layers, and the cache
   * keeps agreeing with them.
   */
  lemma GetUncheckedTransparent(baseFolder: Option<string>, env: Environment,
                                 entries: map<ResourceLocation, LootTable>, loc: ResourceLocation)
    requires Agrees(baseFolder, env, entries)
    ensures GetUnchecked(baseFolder, env, entries, loc).result == Loaded(baseFolder, env, loc)
    ensures Agrees(baseFolder, env, GetUnchecked(baseFolder, env, entries, loc).entries)
  {
  }

  /** The cache contents and the stored-load history after (part of) a reload. */
  datatype Reloaded = Reloaded(entries: map<ResourceLocation, LootTable>, loads: seq<ResourceLocation>, completed: bool)

  /**
   * The loop of `reloadLootTables`: `getUnchecked` for each known key in
   * turn, stopping at the first exception. `loads` records every key whose
   * load stored a table; `completed` is false when an exception escaped.
   */
  function Populate(baseFolder: Option<string>, env: Environment, known: seq<ResourceLocation>,
                    entries: map<ResourceLocation, LootTable>, loads: seq<ResourceLocation>): (r: Reloaded)
    ensures |loads| <= |r.loads| <= |loads| + |known| && r.loads[..|loads|] == loads
    decreases |known|
  {
    if known == [] then Reloaded(entries, loads, true)
    else
      var f := GetUnchecked(baseFolder, env, entries, known[0]);
      if f.result.Threw? then Reloaded(entries, loads, false)
      else Populate(baseFolder, env, known[1..], f.entries,
                    if f.ranLoader then loads + [known[0]] else loads)
  }

  /**
   * `reloadLootTables`: discard every entry, then populate from the known
   * keys. Nothing cached before survives: every entry afterwards is a known
   * key, and at most one load per known key is recorded.
   */
  function Reload(baseFolder: Option<string>, env: Environment, known: seq<ResourceLocation>): (r: Reloaded)
    ensures forall k :: k in r.entries ==> k in known
    ensures |r.loads| <= |known|
  {
    PopulateKeys(baseFolder, env, known, map[], []);
    Populate(baseFolder, env, known, map[], [])
  }

  /**
   * Populating keeps every entry already cached, adds only known keys, and
   * adds all of them when no exception escapes; it stops early exactly when
   * some known key was not cached and its load throws.
   */
  lemma {:induction false} PopulateKeys(baseFolder: Option<string>, env: Environment, known: seq<ResourceLocation>,
                                        entries: map<ResourceLocation, LootTable>, loads: seq<ResourceLocation>)
    ensures var r := Populate(baseFolder, env, known, entries, loads);
      && (forall k :: k in entries ==> k in r.entries && r.entries[k] == entries[k])
      && (forall k :: k in r.entries ==> k in entries || k in known)
      && (r.completed ==> forall k :: k in known ==> k in r.entries)
      && (r.completed <==> forall k :: k in known ==> k in entries || Loaded(baseFolder, env, k).Returned?)
    decreases |known|
  {
    if known != [] {
      var f := GetUnchecked(baseFolder, env, entries, known[0]);
      if f.result.Returned? {
        var loads' := if f.ranLoader then loads + [known[0]] else loads;
        PopulateKeys(baseFolder, env, known[1..], f.entries, loads');
        var r := Populate(baseFolder, env, known, entries, loads);
        assert r == Populate(baseFolder, env, known[1..], f.entries, loads');
        assert forall k :: k in known <==> k == known[0] || k in known[1..];
        if !r.completed {
          var k :| k in known[1..] && k !in f.entries && !Loaded(baseFolder, env, k).Returned?;
          assert k in known && k !in entries;
        }
      }
    }
  }

  /** Populating from a cache that agrees with the layers yields a cache that agrees with them. */
  lemma {:induction false} PopulateAgrees(baseFolder: Option<string>, env: Environment, known: seq<ResourceLocation>,
                                          entries: map<ResourceLocation, LootTable>, loads: seq<ResourceLocation>)
    requires Agrees(baseFolder, env, entries)
    ensures Agrees(baseFolder, env, Populate(baseFolder, env, known, entries, loads).entries)
    decreases |known|
  {
    if known != [] {
      var f := GetUnchecked(baseFolder, env, entries, known[0]);
      if f.result.Returned? {
        GetUncheckedTransparent(baseFolder, env, entries, known[0]);
        PopulateAgrees(baseFolder, env, known[1..], f.entries,
                       if f.ranLoader then loads + [known[0]] else loads);
      }
    }
  }

  /**
   * The history of stored loads keeps naming each cached key exactly once:
   * the loader stores a table for a key at most once between invalidations.
   */
  lemma {:induction false} PopulateLoadsOnce(baseFolder: Option<string>, env: Environment, known: seq<ResourceLocation>,
                                             entries: map<ResourceLocation, LootTable>, loads: seq<ResourceLocation>)
    requires Distinct(loads)
    requires forall k :: k in loads <==> k in entries
    ensures var r := Populate(baseFolder, env, known, entries, loads);
      Distinct(r.loads) && (forall k :: k in r.loads <==> k in r.entries)
    decreases |known|
  {
    if known != [] {
      var f := GetUnchecked(baseFolder, env, entries, known[0]);
      if f.result.Returned? {
        var loads' := if f.ranLoader then loads + [known[0]] else loads;
        assert forall k :: k in loads' <==> k in f.entries;
        PopulateLoadsOnce(baseFolder, env, known[1..], f.entries, loads');
      }
    }
  }

  /**
   * After a reload nothing from before survives: only known keys are cached,
   * each with the table the loader computes from the layers at reload time,
   * each stored once. The reload completes exactly when no known key's load
   * throws, and then every known key is cached.
   */
  lemma ReloadSpec(baseFolder: Option<string>, env: Environment, known: seq<ResourceLocation>)
    ensures var r := Reload(baseFolder, env, known);
      && (forall k :: k in r.entries ==> k in known)
      && Agrees(baseFolder, env, r.entries)
      && Distinct(r.loads) && (forall k :: k in r.loads <==> k in r.entries)
      && (r.completed <==> forall k :: k in known ==> Loaded(baseFolder, env, k).Returned?)
      && (r.completed ==> forall k :: k in known ==>
            k in r.entries && Loaded(baseFolder, env, k) == Returned(r.entries[k]))
  {
    PopulateKeys(baseFolder, env, known, map[], []);
    PopulateAgrees(baseFolder, env, known, map[], []);
    PopulateLoadsOnce(baseFolder, env, known, map[], []);
  }

  /** The manager: the cache of loaded tables and the optional override folder. */
  class LootTableManager {
    const baseFolder: Option<string>
    var registeredLootTables: map<ResourceLocation, LootTable>
    /** The keys whose load stored a table since the last `invalidateAll`, in order. */
    ghost var loaded: seq<ResourceLocation>

    ghost predicate Valid()
      reads this
    {
      Distinct(loaded) && forall k :: k in loaded <==> k in registeredLootTables
    }

    /** The field initialisers: an empty cache over the given override folder. */
    constructor (folder: Option<string>)
      ensures Valid()
      ensures baseFolder == folder && registeredLootTables == map[] && loaded == []
    {
      baseFolder := folder;
      registeredLootTables := map[];
      loaded := [];
    }

    /**
     * `new LootTableManager(folder)`: the field initialisers followed by a
     * reload. `null` stands for the exception that escapes the constructor
     * when a known table's load throws.
     */
    static method Create(folder: Option<string>, env: Environment, known: seq<ResourceLocation>)
      returns (m: LootTableManager?)
      ensures m != null <==> Reload(folder, env, known).completed
      ensures m != null ==>
        && fresh(m) && m.Valid() && m.baseFolder == folder
        && m.registeredLootTables == Reload(folder, env, known).entries
        && m.loaded == Reload(folder, env, known).loads
        && Agrees(folder, env, m.registeredLootTables)
        && forall k :: k in known ==> k in m.registeredLootTables
    {
      var manager := new LootTableManager(folder);
      var completed := manager.ReloadLootTables(env, known);
      m := if completed then manager else null;
    }

    /** `getLootTableFromLocation`: one `getUnchecked` on the cache. */
    method GetLootTableFromLocation(env: Environment, loc: ResourceLocation) returns (r: Outcome)
      requires Valid()
      modifies this
      ensures Valid()
      ensures var f := GetUnchecked(baseFolder, env, old(registeredLootTables), loc);
        && r == f.result && registeredLootTables == f.entries
        && loaded == old(loaded) + (if f.ranLoader && f.result.Returned? then [loc] else [])
      ensures old(Agrees(baseFolder, env, registeredLootTables)) ==>
        r == Loaded(baseFolder, env, loc) && Agrees(baseFolder, env, registeredLootTables)
    {
      if loc in registeredLootTables {
        r := Returned(registeredLootTables[loc]);
      } else {
        var s := Load(baseFolder, env, loc);
        if s.Answer? {
          r := Returned(s.table);
          registeredLootTables := registeredLootTables[loc := s.table];
          loaded := loaded + [loc];
        } else {
          r := Threw;
        }
      }
      if old(Agrees(baseFolder, env, registeredLootTables)) {
        GetUncheckedTransparent(baseFolder, env, old(registeredLootTables), loc);
      }
    }

    /** `registeredLootTables.invalidateAll()`: every entry is discarded. */
    method InvalidateAll()
      modifies this
      ensures Valid()
      ensures registeredLootTables == map[] && loaded == []
    {
      registeredLootTables := map[];
      loaded := [];
    }

    /**
     * `reloadLootTables`: invalidate, then look up every known table in
     * order. `completed` is false when an exception escaped; the entries
     * cached before it stay in the cache.
     */
    method ReloadLootTables(env: Environment, known: seq<ResourceLocation>) returns (completed: bool)
      modifies this
      ensures Valid()
      ensures var r := Reload(baseFolder, env, known);
        registeredLootTables == r.entries && loaded == r.loads && completed == r.completed
      ensures Agrees(baseFolder, env, registeredLootTables)
      ensures forall k :: k in registeredLootTables ==> k in known
      ensures completed ==> forall k :: k in known ==> k in registeredLootTables
    {
      InvalidateAll();
      completed := true;
      var i := 0;
      while i < |known|
        invariant 0 <= i <= |known|
        invariant Valid()
        invariant Populate(baseFolder, env, known[i..], registeredLootTables, loaded) == Reload(baseFolder, env, known)
      {
        ghost var before, history := registeredLootTables, loaded;
        var r := GetLootTableFromLocation(env, known[i]);
        if r.Threw? {
          completed := false;
          break;
        }
        ghost var f := GetUnchecked(baseFolder, env, before, known[i]);
        assert f.result == r && f.entries == registeredLootTables;
        assert loaded == if f.ranLoader then history + [known[i]] else history;
        assert known[i..] != [] && known[i..][0] == known[i] && known[i..][1..] == known[i + 1..];
        assert Populate(baseFolder, env, known[i..], before, history)
            == Populate(baseFolder, env, known[i + 1..], registeredLootTables, loaded);
        i := i + 1;
      }
      ReloadSpec(baseFolder, env, known);
    }
  }
}
