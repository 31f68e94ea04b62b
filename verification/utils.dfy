/**
 * The facade of createUtils.ts: `getItem`, `setItem` and `removeItem` over
 * `window.localStorage`, publishing on the bus after a write succeeds. When the
 * store is unavailable every operation degrades to `null` or a no-op, and no
 * operation ever throws.
 */
module Utils {
  import opened Wrappers
  import opened Json
  import opened Storage
  import opened PubSub

  /** What `getItem(key)` returns when availability is `available` and the store is `s`. */
  function ItemValue(available: bool, s: Store, key: string, c: Codec): Value
  {
    if !available then Null
    else
      match Read(s, key)
      case Threw => Null
      case Returned(None) => Null
      case Returned(Some(raw)) => SafeParse(c, raw)
  }

  /** The store after a facade write, and whether the write published. */
  datatype WriteOutcome = WriteOutcome(after: Store, published: bool)

  /** A write attempted only when storage is available, whose throw is swallowed. */
  function Commit(available: bool, s: Store, attempt: Attempt<Store>): WriteOutcome
  {
    if !available then WriteOutcome(s, false)
    else
      match attempt
      case Threw => WriteOutcome(s, false)
      case Returned(written) => WriteOutcome(written, true)
  }

  function SetOutcome(available: bool, s: Store, key: string, raw: string): WriteOutcome
  {
    Commit(available, s, Write(s, key, raw))
  }

  function RemoveOutcome(available: bool, s: Store, key: string): WriteOutcome
  {
    Commit(available, s, Erase(s, key))
  }

  /** Without storage, reads give `null` and writes change nothing and publish nothing. */
  lemma UnavailableIsInert(s: Store, key: string, raw: string, c: Codec)
    ensures ItemValue(false, s, key, c) == Null
    ensures SetOutcome(false, s, key, raw) == WriteOutcome(s, false)
    ensures RemoveOutcome(false, s, key) == WriteOutcome(s, false)
  {
  }

  /** `getItem` is `null` exactly when no string is readable at the key, else the parsed string. */
  lemma ItemValueCases(available: bool, s: Store, key: string, c: Codec)
    ensures !available || Unreadable(s.mode) || key !in s.entries ==> ItemValue(available, s, key, c) == Null
    ensures available && !Unreadable(s.mode) && key in s.entries ==> ItemValue(available, s, key, c) == SafeParse(c, s.entries[key])
  {
  }

  /** `setItem` publishes iff the store accepted the write; then only `key` changes, else nothing does. */
  lemma SetPublishesIffStored(available: bool, s: Store, key: string, raw: string)
    ensures SetOutcome(available, s, key, raw).published <==> available && !Rejects(s.mode, raw)
    ensures SetOutcome(available, s, key, raw).published ==>
      SetOutcome(available, s, key, raw).after == Store(s.entries[key := raw], s.mode)
    ensures !SetOutcome(available, s, key, raw).published ==> SetOutcome(available, s, key, raw).after == s
  {
  }

  /** `removeItem` publishes iff the store accepted the removal; then only `key` changes, else nothing does. */
  lemma RemovePublishesIffRemoved(available: bool, s: Store, key: string)
    ensures RemoveOutcome(available, s, key).published <==> available && !Unreadable(s.mode)
    ensures RemoveOutcome(available, s, key).published ==>
      RemoveOutcome(available, s, key).after == Store(s.entries - {key}, s.mode)
    ensures !RemoveOutcome(available, s, key).published ==> RemoveOutcome(available, s, key).after == s
  {
  }

  /** A successful `setItem(key, v)` followed by `getItem(key)` gives `v` back when the codec round-trips it. */
  lemma SetThenGet(s: Store, key: string, v: Value, c: Codec)
    requires SetOutcome(true, s, key, c.stringify(v)).published
    requires RoundTrips(c, v)
    ensures ItemValue(true, SetOutcome(true, s, key, c.stringify(v)).after, key, c) == v
  {
  }

  /** After a successful `removeItem(key)`, `getItem(key)` is `null`. */
  lemma RemoveThenGet(s: Store, key: string, c: Codec)
    requires RemoveOutcome(true, s, key).published
    ensures ItemValue(true, RemoveOutcome(true, s, key).after, key, c) == Null
  {
  }

  /** The package `createUtils` returns, bound to the bus it publishes on. */
  class StorageUtils {
    const window: LocalStorage
    const hasLocalStorage: bool
    const bus: StoragePubSub
    const codec: Codec

    constructor (window: LocalStorage, hasLocalStorage: bool, bus: StoragePubSub, codec: Codec)
      ensures this.window == window && this.hasLocalStorage == hasLocalStorage
      ensures this.bus == bus && this.codec == codec
    {
      this.window := window;
      this.hasLocalStorage := hasLocalStorage;
      this.bus := bus;
      this.codec := codec;
    }

    method GetItem(key: string) returns (v: Value)
      ensures v == ItemValue(hasLocalStorage, window.State(), key, codec)
    {
      if !hasLocalStorage {
        return Null;
      }
      var raw := window.GetItem(key);
      match raw
      case Threw => v := Null;
      case Returned(None) => v := Null;
      case Returned(Some(text)) => v := SafeParse(codec, text);
    }

    method SetItem(key: string, val: Value) returns (calls: seq<Call>)
      modifies window
      ensures var o := SetOutcome(hasLocalStorage, old(window.State()), key, codec.stringify(val));
        window.State() == o.after && calls == if o.published then Dispatch(bus.listeners, key, Some(SET)) else []
    {
      calls := [];
      if !hasLocalStorage {
        return;
      }
      var ok := window.SetItem(key, codec.stringify(val));
      if ok {
        calls := bus.PublishStorageChange(key, SET);
      }
    }

    method RemoveItem(key: string) returns (calls: seq<Call>)
      modifies window
      ensures var o := RemoveOutcome(hasLocalStorage, old(window.State()), key);
        window.State() == o.after && calls == if o.published then Dispatch(bus.listeners, key, Some(REMOVE)) else []
    {
      calls := [];
      if !hasLocalStorage {
        return;
      }
      var ok := window.RemoveItem(key);
      if ok {
        calls := bus.PublishStorageChange(key, REMOVE);
      }
    }
  }
}
