/**
 * The non-React part of the all-in-one `createLocalStorageTools` factory of
 * index.tsx: the key check, the choice of accessors, the hydration of defaults,
 * a bus of its own, and a `getItem` that throws and a `setItem` that does not.
 */
module LegacyTools {
  import opened Wrappers
  import opened Json
  import opened Storage
  import opened Stubs
  import opened PubSub

  /** An own property key of the defaults object: a string or a symbol. */
  datatype PropertyKey = StringKey(name: string) | SymbolKey(id: nat)

  /** The errors construction throws. */
  datatype SetupError = NonStringKey | NullDefault(key: string) | HydrationFailed(key: string)

  /** The errors `getItem` throws. */
  datatype GetError = Irretrievable(key: string) | Missing(key: string)

  /**
   * `Reflect.ownKeys(defaults).every(k => typeof k === 'string')`: the scan stops
   * at the first symbol key, and holds exactly when no own key is a symbol.
   */
  predicate AllKeysAreStrings(props: seq<(PropertyKey, Value)>): (r: bool)
    ensures r <==> forall i :: 0 <= i < |props| ==> props[i].0.StringKey?
    decreases |props|
  {
    props == [] || (props[0].0.StringKey? && AllKeysAreStrings(props[1..]))
  }

  /** `Object.entries(defaults)`: the string-keyed properties, in order. */
  function Entries(props: seq<(PropertyKey, Value)>): (r: seq<(string, Value)>)
    ensures |r| <= |props|
    ensures AllKeysAreStrings(props) ==>
      |r| == |props| && forall i :: 0 <= i < |props| ==> r[i] == (props[i].0.name, props[i].1)
    decreases |props|
  {
    if props == [] then []
    else (if props[0].0.StringKey? then [(props[0].0.name, props[0].1)] else []) + Entries(props[1..])
  }

  /** The caller's stub is used only when storage is unavailable and a stub was given. */
  predicate UsesApiStub(stubs: Backend, apiStub: Option<LocalStorage>)
  {
    !stubs.hasLocalStorage && apiStub.Some?
  }

  /** The one object the chosen accessors read and write. */
  function MediumObjectOf(stubs: Backend, apiStub: Option<LocalStorage>): object
  {
    if UsesApiStub(stubs, apiStub) then apiStub.value else stubs.MediumObject()
  }

  function ApiStubFrame(apiStub: Option<LocalStorage>): set<object>
  {
    if apiStub.Some? then {apiStub.value} else {}
  }

  /** The medium the chosen accessors serve. */
  function MediumOf(stubs: Backend, apiStub: Option<LocalStorage>): Store
    reads stubs, stubs.window, ApiStubFrame(apiStub)
  {
    if UsesApiStub(stubs, apiStub) then apiStub.value.State() else stubs.Medium()
  }

  /** The store hydration leaves, and the error it throws, if any. */
  datatype Hydration = Hydration(store: Store, error: Option<SetupError>)

  /**
   * The hydration loop: entries in order; a `null` default throws at its entry;
   * a key reading `null` gets the stringified default; any throw of the
   * accessors is re-thrown as a hydration error for that key.
   */
  function Hydrate(s: Store, entries: seq<(string, Value)>, c: Codec): (r: Hydration)
    ensures r.store.mode == s.mode
    ensures forall k :: k in s.entries ==> k in r.store.entries && r.store.entries[k] == s.entries[k]
    ensures r.error.None? ==> forall i :: 0 <= i < |entries| ==> entries[i].0 in r.store.entries
    ensures r.error.Some? ==> !r.error.value.NonStringKey?
    decreases |entries|
  {
    if entries == [] then Hydration(s, None)
    else
      var (key, defaultValue) := entries[0];
      if defaultValue == Null then Hydration(s, Some(NullDefault(key)))
      else
        match Read(s, key)
        case Threw => Hydration(s, Some(HydrationFailed(key)))
        case Returned(Some(_)) => Hydrate(s, entries[1..], c)
        case Returned(None) =>
          match Write(s, key, c.stringify(defaultValue))
          case Threw => Hydration(s, Some(HydrationFailed(key)))
          case Returned(written) => Hydrate(written, entries[1..], c)
  }

  /** Hydration is a fold over the entries: `a + b` is `a`, then `b` on what `a` left, unless `a` threw. */
  lemma {:induction false} HydrateAppend(s: Store, a: seq<(string, Value)>, b: seq<(string, Value)>, c: Codec)
    ensures Hydrate(s, a + b, c) == (var h := Hydrate(s, a, c); if h.error.Some? then h else Hydrate(h.store, b, c))
    decreases |a|
  {
    if a == [] {
      assert a + b == b;
    } else {
      assert (a + b)[0] == a[0];
      assert (a + b)[1..] == a[1..] + b;
      var (key, defaultValue) := a[0];
      if defaultValue != Null {
        match Read(s, key)
        case Threw =>
        case Returned(Some(_)) => HydrateAppend(s, a[1..], b, c);
        case Returned(None) =>
          match Write(s, key, c.stringify(defaultValue))
          case Threw =>
          case Returned(written) => HydrateAppend(written, a[1..], b, c);
      }
    }
  }

  /** A `null` default throws at its own entry, after the entries before it were hydrated. */
  lemma HydrateStopsAtNull(s: Store, entries: seq<(string, Value)>, c: Codec, i: nat)
    requires i < |entries| && entries[i].1 == Null
    requires Hydrate(s, entries[..i], c).error.None?
    ensures Hydrate(s, entries, c) == Hydration(Hydrate(s, entries[..i], c).store, Some(NullDefault(entries[i].0)))
  {
    assert entries == entries[..i] + entries[i..];
    HydrateAppend(s, entries[..i], entries[i..], c);
    assert entries[i..][0] == entries[i];
  }

  /** A key missing before hydration holds the stringified default of its first entry afterwards. */
  lemma {:induction false} HydrateWritesDefault(s: Store, entries: seq<(string, Value)>, c: Codec, i: nat)
    requires Hydrate(s, entries, c).error.None?
    requires i < |entries|
    requires forall j :: 0 <= j < i ==> entries[j].0 != entries[i].0
    requires entries[i].0 !in s.entries
    ensures Hydrate(s, entries, c).store.entries[entries[i].0] == c.stringify(entries[i].1)
    decreases i
  {
    var (key, defaultValue) := entries[0];
    assert defaultValue != Null;
    match Read(s, key)
    case Threw =>
    case Returned(Some(_)) =>
      HydrateWritesDefault(s, entries[1..], c, i - 1);
    case Returned(None) =>
      match Write(s, key, c.stringify(defaultValue))
      case Threw =>
      case Returned(written) =>
        if i > 0 {
          HydrateWritesDefault(written, entries[1..], c, i - 1);
        }
  }

  /** Hydration touches no key that is not declared in the defaults. */
  lemma {:induction false} HydrateOnlyDeclared(s: Store, entries: seq<(string, Value)>, c: Codec, k: string)
    requires forall i :: 0 <= i < |entries| ==> entries[i].0 != k
    ensures Lookup(Hydrate(s, entries, c).store.entries, k) == Lookup(s.entries, k)
    decreases |entries|
  {
    if entries != [] {
      var (key, defaultValue) := entries[0];
      if defaultValue != Null {
        match Read(s, key)
        case Threw =>
        case Returned(Some(_)) => HydrateOnlyDeclared(s, entries[1..], c, k);
        case Returned(None) =>
          match Write(s, key, c.stringify(defaultValue))
          case Threw =>
          case Returned(written) => HydrateOnlyDeclared(written, entries[1..], c, k);
      }
    }
  }

  /** A medium whose calls all throw makes hydration fail at the first non-null entry, changing nothing. */
  lemma HydrateRethrows(s: Store, entries: seq<(string, Value)>, c: Codec)
    requires Unreadable(s.mode) && entries != [] && entries[0].1 != Null
    ensures Hydrate(s, entries, c) == Hydration(s, Some(HydrationFailed(entries[0].0)))
  {
  }

  /** What `getItem(key)` returns or throws when the chosen medium is `s`. */
  function ReadItem(s: Store, key: string, c: Codec): Result<Value, GetError>
  {
    match Read(s, key)
    case Threw => Failure(Irretrievable(key))
    case Returned(None) => Failure(Missing(key))
    case Returned(Some(raw)) => Success(SafeParse(c, raw))
  }

  /** After hydration completes, `getItem` of every declared key returns rather than throws. */
  lemma HydratedKeysReadable(s: Store, entries: seq<(string, Value)>, c: Codec, i: nat)
    requires !Unreadable(s.mode) && Hydrate(s, entries, c).error.None? && i < |entries|
    ensures ReadItem(Hydrate(s, entries, c).store, entries[i].0, c).Success?
  {
  }

  /** The tools the factory returns, without the React parts. */
  class LocalStorageTools {
    const stubs: Backend
    const apiStub: Option<LocalStorage>
    const codec: Codec
    var listeners: seq<ListenerId>

    constructor (stubs: Backend, apiStub: Option<LocalStorage>, codec: Codec)
      ensures this.stubs == stubs && this.apiStub == apiStub && this.codec == codec
      ensures listeners == []
    {
      this.stubs := stubs;
      this.apiStub := apiStub;
      this.codec := codec;
      listeners := [];
    }

    function MediumObject(): object
    {
      MediumObjectOf(stubs, apiStub)
    }

    function Medium(): Store
      reads stubs, stubs.window, ApiStubFrame(apiStub)
    {
      MediumOf(stubs, apiStub)
    }

    /** `safeGetItem`: the stub's `getItem`, or `safeGetFromStorage`. */
    method SafeGetItem(key: string) returns (r: Attempt<Option<string>>)
      ensures r == Read(Medium(), key)
    {
      if UsesApiStub(stubs, apiStub) {
        r := apiStub.value.GetItem(key);
      } else {
        r := stubs.SafeGetFromStorage(key);
      }
    }

    /** `safeSetItem`: the stub's `setItem`, or `safeSetInStorage`. */
    method SafeSetItem(key: string, value: string) returns (ok: bool)
      modifies MediumObject()
      ensures Write(old(Medium()), key, value) == if ok then Returned(Medium()) else Threw
      ensures !ok ==> Medium() == old(Medium())
    {
      if UsesApiStub(stubs, apiStub) {
        ok := apiStub.value.SetItem(key, value);
      } else {
        ok := stubs.SafeSetInStorage(key, value);
      }
    }

    /** The hydration loop over the entries of the defaults. */
    method HydrateDefaults(entries: seq<(string, Value)>) returns (error: Option<SetupError>)
      modifies MediumObject()
      ensures Hydration(Medium(), error) == Hydrate(old(Medium()), entries, codec)
    {
      var i := 0;
      while i < |entries|
        invariant 0 <= i <= |entries|
        invariant Hydrate(old(Medium()), entries, codec) == Hydrate(Medium(), entries[i..], codec)
      {
        assert entries[i..][0] == entries[i] && entries[i..][1..] == entries[i + 1..];
        var (key, defaultValue) := entries[i];
        if defaultValue == Null {
          return Some(NullDefault(key));
        }
        var existing := SafeGetItem(key);
        if existing.Threw? {
          return Some(HydrationFailed(key));
        }
        if existing.value.None? {
          var ok := SafeSetItem(key, codec.stringify(defaultValue));
          if !ok {
            return Some(HydrationFailed(key));
          }
        }
        i := i + 1;
      }
      return None;
    }

    method PublishStorageChange(key: string) returns (calls: seq<Call>)
      ensures calls == Dispatch(listeners, key, None)
    {
      calls := Notify(listeners, key, None);
    }

    method SubscribeToStorageChange(listener: ListenerId)
      modifies this`listeners
      ensures listeners == old(listeners) + [listener]
    {
      listeners := listeners + [listener];
    }

    method UnsubscribeFromStorageChange(listener: ListenerId)
      modifies this`listeners
      ensures listeners == Without(old(listeners), listener)
    {
      listeners := Without(listeners, listener);
    }

    /** `getItem`: throws when the medium throws or the key is missing, else the parsed string. */
    method GetItem(key: string) returns (r: Result<Value, GetError>)
      ensures r == ReadItem(Medium(), key, codec)
    {
      var raw := SafeGetItem(key);
      match raw
      case Threw => r := Failure(Irretrievable(key));
      case Returned(None) => r := Failure(Missing(key));
      case Returned(Some(text)) => r := Success(SafeParse(codec, text));
    }

    /** `setItem`: write the stringified value, then publish the key; a throwing write publishes nothing. */
    method SetItem(key: string, val: Value) returns (calls: seq<Call>)
      modifies MediumObject()
      ensures match Write(old(Medium()), key, codec.stringify(val))
        case Threw => Medium() == old(Medium()) && calls == []
        case Returned(written) => Medium() == written && calls == Dispatch(listeners, key, None)
    {
      calls := [];
      var ok := SafeSetItem(key, codec.stringify(val));
      if ok {
        calls := PublishStorageChange(key);
      }
    }
  }

  /** `createLocalStorageTools`: fail-fast key check, accessor choice, then hydration. */
  method CreateLocalStorageTools(defaults: seq<(PropertyKey, Value)>, stubs: Backend, apiStub: Option<LocalStorage>, codec: Codec)
    returns (r: Result<LocalStorageTools, SetupError>)
    modifies MediumObjectOf(stubs, apiStub)
    ensures !AllKeysAreStrings(defaults) ==>
      r == Failure(NonStringKey) && MediumOf(stubs, apiStub) == old(MediumOf(stubs, apiStub))
    ensures AllKeysAreStrings(defaults) ==>
      var h := Hydrate(old(MediumOf(stubs, apiStub)), Entries(defaults), codec);
      MediumOf(stubs, apiStub) == h.store &&
      (h.error.Some? ==> r == Failure(h.error.value)) &&
      (h.error.None? ==>
         r.Success? && fresh(r.value) && r.value.listeners == [] &&
         r.value.stubs == stubs && r.value.apiStub == apiStub && r.value.codec == codec)
  {
    if !AllKeysAreStrings(defaults) {
      return Failure(NonStringKey);
    }
    var tools := new LocalStorageTools(stubs, apiStub, codec);
    var error := tools.HydrateDefaults(Entries(defaults));
    if error.Some? {
      return Failure(error.value);
    }
    return Success(tools);
  }
}
