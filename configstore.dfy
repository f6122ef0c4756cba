/**
 * The index store of src/store/index.ts: the application config, read from local storage
 * (or initialised there) when the store is created, merged with updates and written back.
 *
 * A config is a JavaScript object of JSON values; local storage is a map from key to the
 * config stored under it (JSON text and its parsing are abstracted away).
 */
module ConfigStore {

  /** The JSON values a config entry can hold. */
  datatype Value = Str(s: string) | Num(n: int) | Bool(b: bool) | Null

  type Config = map<string, Value>

  /** JavaScript truthiness: the empty string, zero, false and null are falsy. */
  predicate Truthy(v: Value) {
    match v
    case Str(s) => s != ""
    case Num(n) => n != 0
    case Bool(b) => b
    case Null => false
  }

  const ConfigKey: string := "config"
  const ThemeKey: string := "theme"
  const DefaultTheme: Value := Str("dark")

  /** The object `defaultConfig` writes when nothing is stored. */
  const InitialConfig: Config := map[ThemeKey := DefaultTheme]

  /** The `theme` getter: the configured theme when it is set and truthy, otherwise "dark". */
  function Theme(config: Config): (r: Value)
    ensures Truthy(r)
    ensures ThemeKey in config && Truthy(config[ThemeKey]) ==> r == config[ThemeKey]
    ensures !(ThemeKey in config && Truthy(config[ThemeKey])) ==> r == DefaultTheme
  {
    if ThemeKey in config && Truthy(config[ThemeKey]) then config[ThemeKey] else DefaultTheme
  }

  /** `{ ...base, ...update }`: every key of either, the value of `update` winning. */
  function Merge(base: Config, update: Config): (r: Config)
    ensures r.Keys == base.Keys + update.Keys
    ensures forall k :: k in update ==> r[k] == update[k]
    ensures forall k :: k in base && k !in update ==> r[k] == base[k]
  {
    base + update
  }

  /** An empty update leaves the config as it was. */
  lemma MergeEmpty(base: Config)
    ensures Merge(base, map[]) == base
  {
  }

  /** Applying the same update twice is applying it once. */
  lemma MergeIdempotent(base: Config, update: Config)
    ensures Merge(Merge(base, update), update) == Merge(base, update)
  {
  }

  /** Two updates in a row are the single update made of the second merged over the first. */
  lemma MergeSequential(base: Config, first: Config, second: Config)
    ensures Merge(Merge(base, first), second) == Merge(base, Merge(first, second))
  {
  }

  /** An update that sets a truthy theme is what the getter reads back. */
  lemma ThemeAfterMerge(base: Config, update: Config)
    requires ThemeKey in update && Truthy(update[ThemeKey])
    ensures Theme(Merge(base, update)) == update[ThemeKey]
  {
  }

  /** The browser's local storage, holding configs by key. */
  class LocalStorage {
    var items: map<string, Config>

    constructor (items: map<string, Config>)
      ensures this.items == items
    {
      this.items := items;
    }
  }

  /**
   * `defaultConfig`: the stored config when there is one, left untouched; otherwise
   * `{theme: 'dark'}`, written to storage first.
   */
  method LoadConfig(storage: LocalStorage) returns (c: Config)
    modifies storage
    ensures ConfigKey in old(storage.items) ==> c == old(storage.items)[ConfigKey] && storage.items == old(storage.items)
    ensures ConfigKey !in old(storage.items) ==> c == InitialConfig && storage.items == old(storage.items)[ConfigKey := c]
    ensures ConfigKey in storage.items && storage.items[ConfigKey] == c
  {
    if ConfigKey in storage.items {
      return storage.items[ConfigKey];
    }
    c := InitialConfig;
    storage.items := storage.items[ConfigKey := c];
  }

  /** The store: its `config` state, kept equal to what storage holds under "config". */
  class IndexStore {
    var config: Config
    const storage: LocalStorage

    ghost predicate Valid()
      reads this, storage
    {
      ConfigKey in storage.items && storage.items[ConfigKey] == config
    }

    /** The store's `state()`: `config` starts as `defaultConfig()`. */
    constructor (storage: LocalStorage)
      modifies storage
      ensures this.storage == storage && Valid()
      ensures ConfigKey in old(storage.items) ==> config == old(storage.items)[ConfigKey] && storage.items == old(storage.items)
      ensures ConfigKey !in old(storage.items) ==> config == InitialConfig && storage.items == old(storage.items)[ConfigKey := InitialConfig]
    {
      this.storage := storage;
      var c := LoadConfig(storage);
      config := c;
    }

    /**
     * `updateConfig`: the merged config is written to storage under "config" and becomes the
     * state; no other storage key changes.
     */
    method UpdateConfig(update: Config)
      requires Valid()
      modifies this, storage
      ensures Valid()
      ensures config == Merge(old(config), update)
      ensures storage.items == old(storage.items)[ConfigKey := config]
    {
      var c := config + update;
      storage.items := storage.items[ConfigKey := c];
      config := c;
    }
  }

  /** A client of the store: updating twice with the same object gives one update's config. */
  method UpdateTwice(store: IndexStore, update: Config)
    requires store.Valid()
    modifies store, store.storage
    ensures store.Valid()
    ensures store.config == Merge(old(store.config), update)
  {
    store.UpdateConfig(update);
    store.UpdateConfig(update);
    MergeIdempotent(old(store.config), update);
  }
}
