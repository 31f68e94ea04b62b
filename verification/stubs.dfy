/**
 * The module state of stubs.ts: the availability flag computed once when the
 * module loads, and the in-memory map that stands in for `localStorage` when
 * that flag is false.
 */
module Stubs {
  import opened Wrappers
  import opened Storage

  /** What the probe reports, and the store it leaves behind. */
  datatype ProbeResult = ProbeResult(available: bool, after: Store)

  /**
   * `testLocalStorage`: without a `window`, false; otherwise write "1" under the
   * test key and remove it again, reporting whether both calls returned.
   */
  function Probe(hasWindow: bool, s: Store, testKey: string): (r: ProbeResult)
    ensures r.available <==> hasWindow && !Rejects(s.mode, "1")
    ensures r.available ==> r.after == s.(entries := s.entries - {testKey})
    ensures !r.available ==> r.after == s
  {
    if !hasWindow then ProbeResult(false, s)
    else
      match Write(s, testKey, "1")
      case Threw => ProbeResult(false, s)
      case Returned(written) =>
        match Erase(written, testKey)
        case Threw => ProbeResult(false, written)
        case Returned(erased) => ProbeResult(true, erased)
  }

  /** A probe whose test key was not in use leaves the store exactly as it found it. */
  lemma ProbeLeavesStoreUnchanged(hasWindow: bool, s: Store, testKey: string)
    requires testKey !in s.entries
    ensures Probe(hasWindow, s, testKey).after == s
  {
    assert s.entries - {testKey} == s.entries;
  }

  method TestLocalStorage(hasWindow: bool, window: LocalStorage, testKey: string) returns (ok: bool)
    modifies window`entries
    ensures ProbeResult(ok, window.State()) == Probe(hasWindow, old(window.State()), testKey)
  {
    if !hasWindow {
      return false;
    }
    ok := window.SetItem(testKey, "1");
    if !ok {
      return false;
    }
    ok := window.RemoveItem(testKey);
  }

  /** The state of the stubs.ts module once it has loaded. */
  class Backend {
    const window: LocalStorage
    /** Computed once, by the probe run at load time, and never re-evaluated. */
    const hasLocalStorage: bool
    var storageStub: map<string, string>

    constructor Load(hasWindow: bool, window: LocalStorage, testKey: string)
      modifies window`entries
      ensures this.window == window
      ensures ProbeResult(hasLocalStorage, window.State()) == Probe(hasWindow, old(window.State()), testKey)
      ensures storageStub == map[]
    {
      var ok := TestLocalStorage(hasWindow, window, testKey);
      this.window := window;
      hasLocalStorage := ok;
      storageStub := map[];
    }

    /** The one object the accessors read and write. */
    function MediumObject(): object
    {
      if hasLocalStorage then window else this
    }

    /** The medium the accessors serve: the real store, or the in-memory map, which never throws. */
    function Medium(): Store
      reads this, window
    {
      if hasLocalStorage then window.State() else Store(storageStub, Healthy)
    }

    /** `safeGetFromStorage`: a missing key reads as `null`; a throw of the real store propagates. */
    method SafeGetFromStorage(key: string) returns (r: Attempt<Option<string>>)
      ensures r == Read(Medium(), key)
      ensures !hasLocalStorage ==> r == Returned(Lookup(storageStub, key))
    {
      if hasLocalStorage {
        r := window.GetItem(key);
      } else {
        r := Returned(if key in storageStub then Some(storageStub[key]) else None);
      }
    }

    /** `safeSetInStorage`: writes exactly one medium, the real store when it is available. */
    method SafeSetInStorage(key: string, value: string) returns (ok: bool)
      modifies MediumObject()
      ensures Write(old(Medium()), key, value) == if ok then Returned(Medium()) else Threw
      ensures !ok ==> Medium() == old(Medium())
      ensures hasLocalStorage ==> storageStub == old(storageStub)
      ensures !hasLocalStorage ==> ok && storageStub == old(storageStub)[key := value] && window.entries == old(window.entries)
    {
      if hasLocalStorage {
        ok := window.SetItem(key, value);
      } else {
        storageStub := storageStub[key := value];
        ok := true;
      }
    }
  }
}
