/**
 * The defaults step of the provider in createStorageContext.tsx: `storeDefaults`
 * reads each key through the facade's `getItem` and writes the stringified
 * default straight to `window.localStorage`, and the provider runs it at most
 * once, guarded by a flag of its own.
 */
module StorageContext {
  import opened Wrappers
  import opened Json
  import opened Storage
  import opened Utils

  /**
   * The loop of `storeDefaults`: a key whose `getItem` is `null` gets its default
   * unless that default is `null`; the first throw ends the loop.
   */
  function StoreEach(s: Store, entries: seq<(string, Value)>, c: Codec): (r: Progress)
    ensures r.store.mode == s.mode
    ensures s.entries.Keys <= r.store.entries.Keys
    ensures forall k :: k in s.entries && SafeParse(c, s.entries[k]) != Null ==> r.store.entries[k] == s.entries[k]
    decreases |entries|
  {
    if entries == [] then Progress(s, false)
    else
      var (key, defaultValue) := entries[0];
      if ItemValue(true, s, key, c) == Null && defaultValue != Null then
        match Write(s, key, c.stringify(defaultValue))
        case Threw => Progress(s, true)
        case Returned(written) => StoreEach(written, entries[1..], c)
      else StoreEach(s, entries[1..], c)
  }

  /** `storeDefaults`: nothing when storage is unavailable or there are no defaults; the throw is swallowed. */
  function DefaultsStored(available: bool, s: Store, defaults: Option<seq<(string, Value)>>, c: Codec): (r: Store)
    ensures r.mode == s.mode && s.entries.Keys <= r.entries.Keys
    ensures forall k :: k in s.entries && SafeParse(c, s.entries[k]) != Null ==> r.entries[k] == s.entries[k]
    ensures !available || defaults.None? ==> r == s
  {
    if !available || defaults.None? then s else StoreEach(s, defaults.value, c).store
  }

  /** The loop is a fold: `a + b` is `a`, then `b` on what `a` left, unless `a` threw. */
  lemma {:induction false} StoreEachAppend(s: Store, a: seq<(string, Value)>, b: seq<(string, Value)>, c: Codec)
    ensures StoreEach(s, a + b, c) == (var p := StoreEach(s, a, c); if p.threw then p else StoreEach(p.store, b, c))
    decreases |a|
  {
    if a == [] {
      assert a + b == b;
    } else {
      assert (a + b)[0] == a[0];
      assert (a + b)[1..] == a[1..] + b;
      var (key, defaultValue) := a[0];
      if ItemValue(true, s, key, c) == Null && defaultValue != Null {
        match Write(s, key, c.stringify(defaultValue))
        case Threw =>
        case Returned(written) => StoreEachAppend(written, a[1..], b, c);
      } else {
        StoreEachAppend(s, a[1..], b, c);
      }
    }
  }

  /** A rejected write of the first entry ends the loop with the store untouched. */
  lemma StoreEachThrowsAtHead(s: Store, entries: seq<(string, Value)>, c: Codec)
    requires entries != [] && entries[0].1 != Null
    requires ItemValue(true, s, entries[0].0, c) == Null && Rejects(s.mode, c.stringify(entries[0].1))
    ensures StoreEach(s, entries, c) == Progress(s, true)
  {
  }

  /**
   * A write that throws ends the loop: the entries `a` before it stay written,
   * the entries of `b` after it are not visited.
   */
  lemma StoreEachAborts(s: Store, a: seq<(string, Value)>, b: seq<(string, Value)>, c: Codec)
    requires b != [] && b[0].1 != Null
    requires var p := StoreEach(s, a, c);
      !p.threw && ItemValue(true, p.store, b[0].0, c) == Null && Rejects(s.mode, c.stringify(b[0].1))
    ensures StoreEach(s, a + b, c) == Progress(StoreEach(s, a, c).store, true)
  {
    StoreEachAppend(s, a, b, c);
    StoreEachThrowsAtHead(StoreEach(s, a, c).store, b, c);
  }

  /** A `null` default is skipped silently, not rejected. */
  lemma NullDefaultSkipped(s: Store, key: string, rest: seq<(string, Value)>, c: Codec)
    ensures StoreEach(s, [(key, Null)] + rest, c) == StoreEach(s, rest, c)
  {
    assert ([(key, Null)] + rest)[1..] == rest;
  }

  /** A stored string that parses to `null` counts as missing and is overwritten by the default. */
  lemma ParsedNullOverwritten(s: Store, key: string, defaultValue: Value, c: Codec)
    requires key in s.entries && SafeParse(c, s.entries[key]) == Null
    requires defaultValue != Null && !Rejects(s.mode, c.stringify(defaultValue))
    ensures StoreEach(s, [(key, defaultValue)], c) == Progress(s.(entries := s.entries[key := c.stringify(defaultValue)]), false)
  {
  }

  /** The loop leaves alone a key that no entry names. */
  lemma {:induction false} StoreEachFrame(s: Store, entries: seq<(string, Value)>, c: Codec, k: string)
    requires forall j :: 0 <= j < |entries| ==> entries[j].0 != k
    ensures Lookup(StoreEach(s, entries, c).store.entries, k) == Lookup(s.entries, k)
    decreases |entries|
  {
    if entries != [] {
      var (key, defaultValue) := entries[0];
      assert key != k;
      forall j | 0 <= j < |entries[1..]|
        ensures entries[1..][j].0 != k
      {
        assert entries[1..][j] == entries[j + 1];
      }
      if ItemValue(true, s, key, c) == Null && defaultValue != Null {
        match Write(s, key, c.stringify(defaultValue))
        case Threw =>
        case Returned(written) => StoreEachFrame(written, entries[1..], c, k);
      } else {
        StoreEachFrame(s, entries[1..], c, k);
      }
    }
  }

  /**
   * A key missing before the loop holds its stringified default afterwards, when
   * the loop did not throw; the entries of an object have distinct keys.
   */
  lemma {:induction false} StoreEachWritesDefault(s: Store, entries: seq<(string, Value)>, c: Codec, i: nat)
    requires !StoreEach(s, entries, c).threw
    requires i < |entries| && entries[i].1 != Null
    requires forall j :: 0 <= j < |entries| && j != i ==> entries[j].0 != entries[i].0
    requires entries[i].0 !in s.entries
    ensures Lookup(StoreEach(s, entries, c).store.entries, entries[i].0) == Some(c.stringify(entries[i].1))
    decreases i
  {
    var k := entries[i].0;
    var (key, defaultValue) := entries[0];
    forall j | 0 <= j < |entries[1..]| && (i == 0 || j != i - 1)
      ensures entries[1..][j].0 != k
    {
      assert entries[1..][j] == entries[j + 1];
    }
    if ItemValue(true, s, key, c) == Null && defaultValue != Null {
      match Write(s, key, c.stringify(defaultValue))
      case Threw =>
      case Returned(written) =>
        if i == 0 {
          StoreEachFrame(written, entries[1..], c, k);
        } else {
          assert entries[1..][i - 1] == entries[i];
          StoreEachWritesDefault(written, entries[1..], c, i - 1);
        }
    } else {
      assert i != 0;
      assert entries[1..][i - 1] == entries[i];
      StoreEachWritesDefault(s, entries[1..], c, i - 1);
    }
  }

  /** The provider: its defaults, its once-flag, and the facade it reads through. */
  class StorageContextProvider {
    const utils: StorageUtils
    const defaults: Option<seq<(string, Value)>>
    var defaultsStored: bool
    /** How many times `storeDefaults` has run for this provider. */
    ghost var storeRuns: nat

    ghost predicate Valid()
      reads this
    {
      storeRuns == if defaultsStored then 1 else 0
    }

    constructor (utils: StorageUtils, defaults: Option<seq<(string, Value)>>)
      ensures Valid() && this.utils == utils && this.defaults == defaults
      ensures !defaultsStored && storeRuns == 0
    {
      this.utils := utils;
      this.defaults := defaults;
      defaultsStored := false;
      storeRuns := 0;
    }

    /** `storeDefaults`: writes go straight to the store, so no change is published. */
    method StoreDefaults()
      modifies this`storeRuns, utils.window
      ensures storeRuns == old(storeRuns) + 1
      ensures utils.window.State() == DefaultsStored(utils.hasLocalStorage, old(utils.window.State()), defaults, utils.codec)
    {
      storeRuns := storeRuns + 1;
      if !utils.hasLocalStorage || defaults.None? {
        return;
      }
      var entries := defaults.value;
      var i := 0;
      while i < |entries|
        invariant 0 <= i <= |entries|
        invariant storeRuns == old(storeRuns) + 1
        invariant StoreEach(old(utils.window.State()), entries, utils.codec) == StoreEach(utils.window.State(), entries[i..], utils.codec)
      {
        assert entries[i..][0] == entries[i] && entries[i..][1..] == entries[i + 1..];
        var (key, defaultValue) := entries[i];
        var existing := utils.GetItem(key);
        if existing == Null && defaultValue != Null {
          var ok := utils.window.SetItem(key, utils.codec.stringify(defaultValue));
          if !ok {
            return;
          }
        }
        i := i + 1;
      }
    }

    /** One render of the provider: the defaults are stored on the first render only. */
    method Render()
      requires Valid()
      modifies this, utils.window
      ensures Valid() && defaultsStored && storeRuns <= 1
      ensures old(defaultsStored) ==> utils.window.State() == old(utils.window.State())
      ensures !old(defaultsStored) ==>
        utils.window.State() == DefaultsStored(utils.hasLocalStorage, old(utils.window.State()), defaults, utils.codec)
    {
      if !defaultsStored {
        StoreDefaults();
        defaultsStored := true;
      }
    }
  }
}
