# react-localstorage-tools: the storage synchronisation layer in Dafny

This project models the non-React core of `react-localstorage-tools`, a typed
layer over the browser's `localStorage`. The model covers five pieces:

- **the in-memory fallback backend** of `stubs.ts`:
  - a one-time availability probe;
  - a module-level `Map` that stands in when the probe fails;
  - the `safeGetFromStorage` / `safeSetInStorage` accessors.
- **the change bus** of `createPubSub.ts`: a listener list with append, remove-all-matching and in-order dispatch.
- **the facade** of `createUtils.ts`: `getItem`, `setItem` and `removeItem`. Each one degrades to `null` or a no-op and publishes `SET`/`REMOVE` only after a write succeeds.
- **the migration engine** of `migrations.ts`: an ordered pass of rename / transform / delete descriptors.
- **default hydration**, in both versions:
  - the all-in-one `createLocalStorageTools` of `index.tsx` (key check, accessor choice, hydration loop, local bus, throwing `getItem`, non-throwing `setItem`);
  - `storeDefaults` of `createStorageContext.tsx` with its run-once guard.

## How the model is built

- **Media.** A medium (`localStorage`, a caller-supplied stub, or the in-memory map) is a `Storage.Store`: a `map<string, string>` plus a `Mode`.
  - `Healthy`: every call succeeds.
  - `Disabled`: every call throws, as in the test proxy.
  - `Limited(n)`: `setItem` throws for a value longer than `n` characters, a per-item quota.

  The mutable medium is the class `Storage.LocalStorage`. A thrown JavaScript exception is `Attempt.Threw`.
- **JSON.** `JSON.stringify` and `JSON.parse` are the two uninterpreted function fields of a `Json.Codec` object. `SafeParse` is `safeParse`: parse `{ "value": raw }` and take the field, or return the raw string when parsing throws.
- **Listeners** are opaque ids. A dispatch returns the calls it made, in order, as `Call(listener, key, change)`. The local bus of `index.tsx` calls `listener(key)`, so its calls carry no change kind.
- **Spec functions and methods.** Each imperative operation is a method whose `ensures` ties the new state to a spec function of the old state: `Step`/`Run`, `Hydrate`, `StoreEach`, `ItemValue`, `SetOutcome`, `Dispatch`, `Without`. The properties are lemmas over those functions.

## Behaviour worth knowing

- `createUtils.ts` has no in-memory fallback. When storage is unavailable, its `getItem` gives `null` and its `setItem`/`removeItem` do nothing (`Utils.UnavailableIsInert`). Only the `stubs.ts` accessors fall back to the module-level map, and only `index.tsx` uses them.
- `publishStorageChange` is a plain `forEach`. It does not isolate a throwing listener: a listener that throws stops the dispatch. The model has no throwing listeners (see Left out).
- `index.tsx` re-throws a hydration failure as a hydration error for that key (`LegacyTools.HydrateRethrows`).
- `index.tsx` rejects a `null` default, while `storeDefaults` in `createStorageContext.tsx` skips it silently (`StorageContext.NullDefaultSkipped`).
- `storeDefaults` writes straight to `window.localStorage`, so it publishes nothing. It tests presence through the facade's `getItem`, so a stored value that parses to `null` counts as missing (`StorageContext.ParsedNullOverwritten`).
- A string migration whose target equals its key removes the key after copying it onto itself, so the value is lost (`Migrations.RenameOntoItselfDeletes`).
- `migrateStorage` does not catch. A throw of the store ends the pass and propagates, and the earlier steps stay applied (`Migrations.RunAppend`, `Migrations.MigrateStorage`).

## Model

| member | source | states |
|---|---|---|
| `Json.DecodeEncoded` | src/safeParse.ts:20-27 | decoding the stringified form of a value gives the value back whenever the JSON codec round-trips it |
| `Json.DecodeAbsent` | src/migrations.ts:18 | `safeParse(null)` interpolates the text "null" and so decodes to `null` |
| `Storage.WriteThenRead` | src/stubs.ts:23-35 | after a write that returned, the key reads back the value just written and every other key reads as before (on the real store and on the in-memory map alike) |
| `Storage.EraseThenRead` | src/createUtils.ts:40 | after a removal that returned, the key reads as `null` and every other key reads as before |
| `Storage.LocalStorage.GetItem` | test/storageProxy.ts:27-30 | throws when the medium is disabled, else returns the stored string or `null` |
| `Storage.LocalStorage.SetItem` | test/storageProxy.ts:32-35 | throws (changing nothing) when the medium rejects the value, else stores it at the key only |
| `Storage.LocalStorage.RemoveItem` | test/storageProxy.ts:37-40 | throws (changing nothing) when the medium is disabled, else removes the key only |
| `Stubs.Probe` | src/stubs.ts:9-19 | false without a `window`; otherwise true iff both the test write and the test removal return; a true probe leaves the store minus the test key, a false one leaves it as it was |
| `Stubs.ProbeLeavesStoreUnchanged` | src/stubs.ts:13-14 | a probe whose test key was unused leaves the store exactly as it found it |
| `Stubs.TestLocalStorage` | src/stubs.ts:9-19 | the probe's calls on the real store report and leave exactly what `Probe` says |
| `Stubs.Backend.Load` | src/stubs.ts:21-23 | the availability flag is the probe's outcome, fixed in a `const` and never re-evaluated; the fallback map starts empty |
| `Stubs.Backend.SafeGetFromStorage` | src/stubs.ts:25-29 | reads the real store when available (its throw propagates), else the fallback map; a missing key is `null` |
| `Stubs.Backend.SafeSetInStorage` | src/stubs.ts:31-35 | writes exactly one medium: the real store when available, else the fallback map (which never throws); the other medium is untouched |
| `PubSub.Dispatch` | src/createPubSub.ts:17-19 | a dispatch makes one call per list entry, in list order, each with the key and change; a listener listed twice is called twice |
| `PubSub.Without` | src/createPubSub.ts:25-27 | the filtered list holds no occurrence of the listener, keeps every other listener with its multiplicity, and is the list itself when the listener was not registered |
| `PubSub.WithoutKeepsOrder` | src/createPubSub.ts:26 | filtering distributes over concatenation, so the remaining listeners keep their original order |
| `PubSub.Notify` | src/createPubSub.ts:18 | the `forEach` loop makes exactly the calls `Dispatch` describes |
| `PubSub.StoragePubSub.constructor` | src/createPubSub.ts:13-14 | each bus starts with its own fresh, empty listener list |
| `PubSub.StoragePubSub.PublishStorageChange` | src/createPubSub.ts:17-19 | publishing calls every registered listener in order with `(key, change)` and leaves the list unchanged |
| `PubSub.StoragePubSub.SubscribeToStorageChange` | src/createPubSub.ts:21-23 | appends the listener at the end, duplicates allowed |
| `PubSub.StoragePubSub.UnsubscribeFromStorageChange` | src/createPubSub.ts:25-27 | replaces the list by its filtered version: every occurrence removed, others kept in order |
| `Utils.UnavailableIsInert` | src/createUtils.ts:17-43 | without storage `getItem` is `null`, and `setItem`/`removeItem` change nothing and publish nothing |
| `Utils.ItemValueCases` | src/createUtils.ts:17-27 | `getItem` is `null` when storage is unavailable, the store throws, or the key is absent; otherwise it is the parsed stored string |
| `Utils.SetPublishesIffStored` | src/createUtils.ts:29-35 | `setItem` publishes iff storage is available and the write returned; then exactly that key holds the stringified value; otherwise the store is unchanged |
| `Utils.RemovePublishesIffRemoved` | src/createUtils.ts:37-43 | `removeItem` publishes iff storage is available and the removal returned; then exactly that key is gone; otherwise the store is unchanged |
| `Utils.SetThenGet` | src/createUtils.ts:17-35 | a successful `setItem(k, v)` followed by `getItem(k)` gives `v` when the codec round-trips `v` |
| `Utils.RemoveThenGet` | src/createUtils.ts:17-43 | a successful `removeItem(k)` followed by `getItem(k)` gives `null` |
| `Utils.StorageUtils.constructor` | src/createUtils.ts:13-16 | the facade is bound to the store, the availability flag, the bus and the codec it is given |
| `Utils.StorageUtils.GetItem` | src/createUtils.ts:17-27 | never throws; returns what `ItemValue` says for the current store |
| `Utils.StorageUtils.SetItem` | src/createUtils.ts:29-35 | the store after the call and the listener calls are those of `SetOutcome`: the `SET` dispatch to the bus's listeners exactly when the write succeeded, no calls otherwise |
| `Utils.StorageUtils.RemoveItem` | src/createUtils.ts:37-43 | the store after the call and the listener calls are those of `RemoveOutcome`: the `REMOVE` dispatch exactly when the removal succeeded |
| `Migrations.Step` | src/migrations.ts:7-31 | one descriptor keeps the medium's mode and changes no key other than its source key and its target key |
| `Migrations.Run` | src/migrations.ts:7-32 | the pass keeps the medium's mode |
| `Migrations.Migrate` | src/migrations.ts:5-33 | the pass keeps the mode; without storage it does nothing and throws nothing |
| `Migrations.RunAppend` | src/migrations.ts:7-32 | the pass is a left fold: running `a + b` runs `a`, then `b` on the store `a` left, unless a call in `a` threw |
| `Migrations.RunFrame` | src/migrations.ts:7-32 | a key that no descriptor names as source or possible target keeps its value through the whole pass |
| `Migrations.RenameStep` | src/migrations.ts:11-15 | a string `mapTo` copies a present source string unchanged to the target, then removes the source |
| `Migrations.RenameOntoItselfDeletes` | src/migrations.ts:12-13 | a string `mapTo` equal to its key leaves the key deleted |
| `Migrations.RenameAbsentSource` | src/migrations.ts:12-13 | a rename of an absent source leaves the target and the whole store untouched |
| `Migrations.TransformStep` | src/migrations.ts:17-25 | a function `mapTo` gets the parsed source (absent parses as `null`); the stringified new value goes to the new key only when not nullish; the source is removed only when the new key differs |
| `Migrations.DiscardStep` | src/migrations.ts:27-30 | a `null` `mapTo` removes the source key and writes nothing |
| `Migrations.DisabledPassThrows` | src/migrations.ts:7-8 | on a disabled store the first read throws out of the pass with the store unchanged |
| `Migrations.RenameExample` | src/migrations.ts:11-15 | `"oldName" = "42"` renamed to `"newName"` leaves exactly `"newName" = "42"` |
| `Migrations.DiscardExample` | src/migrations.ts:27-30 | `"deprecated" = "x"` mapped to delete leaves an empty store |
| `Migrations.MigrateStorage` | src/migrations.ts:5-33 | the loop leaves the store, and reports a throw, exactly as `Migrate` says; without storage it does nothing |
| `LegacyTools.Entries` | src/index.tsx:77 | when every own key is a string, the entries are the properties in order with their names and values |
| `LegacyTools.AllKeysAreStrings` | src/index.tsx:63-65 | the `every` scan over the own keys holds exactly when no own key is a symbol |
| `LegacyTools.Hydrate` | src/index.tsx:77-93 | hydration keeps the mode; it never overwrites or removes an existing value; when it completes, every declared key holds a value |
| `LegacyTools.HydrateAppend` | src/index.tsx:77-93 | hydration is a fold over the entries in order, stopping at the first error |
| `LegacyTools.HydrateStopsAtNull` | src/index.tsx:78-82 | a `null` default throws at its own entry, after the entries before it were hydrated |
| `LegacyTools.HydrateWritesDefault` | src/index.tsx:84-87 | a key missing before hydration holds the stringified default of its first entry afterwards |
| `LegacyTools.HydrateOnlyDeclared` | src/index.tsx:77-93 | hydration changes no key outside the defaults |
| `LegacyTools.HydrateRethrows` | src/index.tsx:83-92 | a medium whose calls throw makes hydration throw a hydration error at the first entry, when its default is not null, changing nothing |
| `LegacyTools.HydratedKeysReadable` | src/index.tsx:113-130 | after complete hydration on a readable medium, `getItem` of every declared key returns instead of throwing |
| `LegacyTools.LocalStorageTools.constructor` | src/index.tsx:97 | the tools start with an empty listener list of their own |
| `LegacyTools.LocalStorageTools.SafeGetItem` | src/index.tsx:73-74 | reads the caller's stub only when storage is unavailable and a stub was given, else goes through `safeGetFromStorage` |
| `LegacyTools.LocalStorageTools.SafeSetItem` | src/index.tsx:75 | writes the same chosen medium; a throwing write changes nothing |
| `LegacyTools.LocalStorageTools.HydrateDefaults` | src/index.tsx:77-93 | the hydration loop leaves the chosen medium, and throws, exactly as `Hydrate` says |
| `LegacyTools.LocalStorageTools.PublishStorageChange` | src/index.tsx:99-101 | calls every listener in order with the key alone |
| `LegacyTools.LocalStorageTools.SubscribeToStorageChange` | src/index.tsx:103-105 | appends the listener |
| `LegacyTools.LocalStorageTools.UnsubscribeFromStorageChange` | src/index.tsx:107-109 | removes every occurrence of the listener, keeping the others in order |
| `LegacyTools.LocalStorageTools.GetItem` | src/index.tsx:113-140 | throws "irretrievable" when the medium throws and "does not exist" when the key is absent, else returns the parsed string |
| `LegacyTools.LocalStorageTools.SetItem` | src/index.tsx:142-147 | writes the stringified value and then calls every listener with the key; a throwing write changes nothing, calls no listener and does not throw |
| `LegacyTools.CreateLocalStorageTools` | src/index.tsx:63-93 | a non-string own key throws before anything is written; otherwise the medium is hydrated and construction throws the hydration error, or returns fresh tools over the chosen accessors |
| `StorageContext.StoreEach` | src/createStorageContext.tsx:78-85 | the loop keeps the mode, removes no key, and never overwrites a stored value that parses to something other than `null` |
| `StorageContext.StoreEachAppend` | src/createStorageContext.tsx:78-85 | the loop is a fold over the entries in order that stops at the first throw |
| `StorageContext.StoreEachThrowsAtHead` | src/createStorageContext.tsx:80-82 | a missing key whose non-null default the store rejects ends the loop at once, with the store untouched |
| `StorageContext.StoreEachAborts` | src/createStorageContext.tsx:78-85 | the first throwing write ends the loop silently; entries written before it stay written, later ones are not visited |
| `StorageContext.NullDefaultSkipped` | src/createStorageContext.tsx:81 | a `null` default is skipped, not rejected |
| `StorageContext.ParsedNullOverwritten` | src/createStorageContext.tsx:80-83 | a stored string that parses to `null` counts as missing and is replaced by the stringified default |
| `StorageContext.StoreEachFrame` | src/createStorageContext.tsx:79-84 | the loop leaves alone every key that no entry names |
| `StorageContext.StoreEachWritesDefault` | src/createStorageContext.tsx:79-84 | when the loop did not throw, a key that was missing before it holds the stringified non-null default of its entry afterwards (entries have distinct keys, as those of `Object.entries` do) |
| `StorageContext.DefaultsStored` | src/createStorageContext.tsx:77-85 | `storeDefaults` keeps the mode, removes no key and keeps every stored value that parses to something other than `null`; without storage or without defaults nothing is written, and a throw is swallowed |
| `StorageContext.StorageContextProvider.constructor` | src/createStorageContext.tsx:59-60 | a provider starts with its once-flag down and no run of `storeDefaults` |
| `StorageContext.StorageContextProvider.StoreDefaults` | src/createStorageContext.tsx:75-86 | the loop leaves the store exactly as `DefaultsStored` says and counts one run; it touches only the store, so no listener is called |
| `StorageContext.StorageContextProvider.Render` | src/createStorageContext.tsx:88-91 | `storeDefaults` runs on the first render only, at most once per provider; later renders leave the store unchanged |

## Left out

- Json.DecodeEncoded: the JSON round trip, `safeParse`'s `{ "value": … }` wrapper included, is assumed of the codec (`RoundTrips`), not proved; the lemma only carries that assumption through `safeParse`. `Utils.SetThenGet` rests on the same hypothesis.
- Json.DecodeAbsent: that the wrapped parse reads the literal `null` as `null` is assumed of the codec (`ParsesNullLiteral`), not proved.
- React: the contexts, the providers' render bodies, the `useEffect`/`useMemo`/`useCallback` wiring and the hooks of `createHooks.ts` and `index.tsx:149-233`. Their job is re-rendering.
- `JSON.parse` and `JSON.stringify` themselves. They are library code, taken as the uninterpreted functions of `Json.Codec`. Round trips are stated under an explicit `RoundTrips` hypothesis. `JSON.stringify(undefined)` yielding `undefined` instead of a string is not modelled. Numbers are integers.
- `src/hasLocalStorage.ts`, a second copy of the probe. `createUtils.ts` and `createStorageContext.tsx` receive its outcome as a boolean constant.
- The probe's environment. Its `Date.now()` key is a `testKey` parameter, and `typeof window` is a `hasWindow` parameter.
- Listener bodies. Listeners are opaque ids: a listener that throws, or that subscribes or unsubscribes during a dispatch, is not modelled.
- LegacyTools.Entries: every own property of the defaults object is taken as enumerable; `Object.entries` would skip a non-enumerable string key that the key check still sees.
- Migration transforms that throw. A transform is a total function.
- Changes of a medium's behaviour in the middle of a call. The mode is fixed for the duration of an operation.
- The quota as a per-item limit. A real store's quota is on the total size.
- The "unserializable" branch of `getItem` in `index.tsx` (lines 131-139). It is unreachable, because `safeParse` catches every parse error; `GetError` therefore has no such case.
- The wiring of `index.ts` and the `migrations` option of the demo app. Neither factory accepts migrations; `migrateStorage` is modelled on its own.
- `clear()`, which no core operation calls.
