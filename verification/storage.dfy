/**
 * The persistent key-value medium (`window.localStorage`, a caller-supplied stub,
 * or the in-memory map of stubs.ts), as a value and as the mutable object the
 * library calls.
 */
module Storage {
  import opened Wrappers

  /**
   * How a medium behaves towards its callers:
   * - `Healthy`: every call succeeds;
   * - `Limited(maxLength)`: `setItem` throws for a value longer than `maxLength`
   *   (a quota), reads and removals succeed;
   * - `Disabled`: every call throws (private browsing, a broken stub).
   */
  datatype Mode = Healthy | Limited(maxLength: nat) | Disabled

  /** `getItem` and `removeItem` throw. */
  predicate Unreadable(m: Mode)
  {
    m.Disabled?
  }

  /** `setItem(_, value)` throws. */
  predicate Rejects(m: Mode, value: string)
  {
    m.Disabled? || (m.Limited? && |value| > m.maxLength)
  }

  /** The contents of a medium and how it behaves. */
  datatype Store = Store(entries: map<string, string>, mode: Mode)

  /** How far a sequence of calls got: the store it left, and whether a call threw. */
  datatype Progress = Progress(store: Store, threw: bool)

  /** `getItem` on a map: the stored string, or `null`. */
  function Lookup(entries: map<string, string>, key: string): Option<string>
  {
    if key in entries then Some(entries[key]) else None
  }

  function Read(s: Store, key: string): Attempt<Option<string>>
  {
    if Unreadable(s.mode) then Threw else Returned(Lookup(s.entries, key))
  }

  function Write(s: Store, key: string, value: string): Attempt<Store>
  {
    if Rejects(s.mode, value) then Threw else Returned(s.(entries := s.entries[key := value]))
  }

  function Erase(s: Store, key: string): Attempt<Store>
  {
    if Unreadable(s.mode) then Threw else Returned(s.(entries := s.entries - {key}))
  }

  /** A write that succeeded is read back at its key, and no other key reads differently. */
  lemma WriteThenRead(s: Store, key: string, value: string, other: string)
    requires Write(s, key, value).Returned?
    ensures Read(Write(s, key, value).value, key) == Returned(Some(value))
    ensures other != key ==> Read(Write(s, key, value).value, other) == Read(s, other)
  {
  }

  /** A removal that succeeded reads back as `null`, and no other key reads differently. */
  lemma EraseThenRead(s: Store, key: string, other: string)
    requires Erase(s, key).Returned?
    ensures Read(Erase(s, key).value, key) == Returned(None)
    ensures other != key ==> Read(Erase(s, key).value, other) == Read(s, other)
  {
  }

  /** A medium object whose calls may throw, in the shape of the test proxy over `localStorage`. */
  class LocalStorage {
    var entries: map<string, string>
    var mode: Mode

    constructor (entries: map<string, string>, mode: Mode)
      ensures State() == Store(entries, mode)
    {
      this.entries := entries;
      this.mode := mode;
    }

    function State(): Store
      reads this
    {
      Store(entries, mode)
    }

    method GetItem(key: string) returns (r: Attempt<Option<string>>)
      ensures r == Read(State(), key)
    {
      if mode.Disabled? {
        r := Threw;
      } else if key in entries {
        r := Returned(Some(entries[key]));
      } else {
        r := Returned(None);
      }
    }

    method SetItem(key: string, value: string) returns (ok: bool)
      modifies this`entries
      ensures Write(old(State()), key, value) == if ok then Returned(State()) else Threw
      ensures !ok ==> entries == old(entries)
    {
      ok := !Rejects(mode, value);
      if ok {
        entries := entries[key := value];
      }
    }

    method RemoveItem(key: string) returns (ok: bool)
      modifies this`entries
      ensures Erase(old(State()), key) == if ok then Returned(State()) else Threw
      ensures !ok ==> entries == old(entries)
    {
      ok := !mode.Disabled?;
      if ok {
        entries := entries - {key};
      }
    }
  }
}
