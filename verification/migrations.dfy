/**
 * The migration engine of migrations.ts: an ordered pass over descriptors
 * `{ key, mapTo }`, each reading `key` and then renaming, transforming or
 * deleting it directly on `window.localStorage`. A throw of the store ends the
 * pass and propagates; the steps before it stay applied.
 */
module Migrations {
  import opened Wrappers
  import opened Json
  import opened Storage

  /** What a transform returns: `{ key: newKey, value: newValue }`. */
  datatype Mapped = Mapped(key: string, value: Value)

  /**
   * The three shapes `mapTo` takes, told apart by `typeof`: a string (rename), a
   * function (transform), and anything else, `null` in practice (delete).
   */
  datatype MapTo = Rename(target: string) | Transform(f: Value -> Mapped) | Discard

  /** The descriptor type `StorageMigration`. */
  datatype StorageMigration = StorageMigration(key: string, mapTo: MapTo)

  /** The value a transform is given: the source string parsed, an absent source parsing as `null`. */
  function SourceValue(s: Store, m: StorageMigration, c: Codec): Value
  {
    SafeParse(c, Interpolate(Lookup(s.entries, m.key)))
  }

  /** The key a step may write besides its source key. */
  function Target(s: Store, m: StorageMigration, c: Codec): string
  {
    match m.mapTo
    case Rename(target) => target
    case Transform(f) => f(SourceValue(s, m, c)).key
    case Discard => m.key
  }

  /** Remove `key` from the store an earlier write left, unless that write threw. */
  function RemoveSource(written: Attempt<Store>, s: Store, key: string): Progress
  {
    match written
    case Threw => Progress(s, true)
    case Returned(s1) =>
      match Erase(s1, key)
      case Threw => Progress(s1, true)
      case Returned(s2) => Progress(s2, false)
  }

  /** One descriptor applied to the store; it changes no key other than its source and its target. */
  function Step(s: Store, m: StorageMigration, c: Codec): (r: Progress)
    ensures r.store.mode == s.mode
    ensures forall k :: k != m.key && k != Target(s, m, c) ==> Lookup(r.store.entries, k) == Lookup(s.entries, k)
  {
    match Read(s, m.key)
    case Threw => Progress(s, true)
    case Returned(value) =>
      match m.mapTo
      case Rename(target) =>
        RemoveSource(if value.Some? then Write(s, target, value.value) else Returned(s), s, m.key)
      case Transform(f) =>
        var mapped := f(SafeParse(c, Interpolate(value)));
        var written := if !IsNullish(mapped.value) then Write(s, mapped.key, c.stringify(mapped.value)) else Returned(s);
        if m.key != mapped.key then RemoveSource(written, s, m.key)
        else (
          match written
          case Threw => Progress(s, true)
          case Returned(s1) => Progress(s1, false))
      case Discard => RemoveSource(Returned(s), s, m.key)
  }

  /** The descriptors applied in list order, each to the store the previous one left, until one throws. */
  function Run(s: Store, ms: seq<StorageMigration>, c: Codec): (r: Progress)
    ensures r.store.mode == s.mode
    decreases |ms|
  {
    if ms == [] then Progress(s, false)
    else
      var p := Step(s, ms[0], c);
      if p.threw then p else Run(p.store, ms[1..], c)
  }

  /** `migrateStorage`: nothing at all when storage is unavailable. */
  function Migrate(available: bool, s: Store, ms: seq<StorageMigration>, c: Codec): (r: Progress)
    ensures r.store.mode == s.mode
    ensures !available ==> r == Progress(s, false)
  {
    if available then Run(s, ms, c) else Progress(s, false)
  }

  /** Whether a descriptor could write or remove `k`, whatever the store holds. */
  ghost predicate MayTouch(m: StorageMigration, k: string)
  {
    m.key == k ||
    (match m.mapTo
     case Rename(target) => target == k
     case Transform(f) => exists v :: f(v).key == k
     case Discard => false)
  }

  /** The pass is a left fold: running `a + b` is running `a`, then `b` on what `a` left, unless `a` threw. */
  lemma {:induction false} RunAppend(s: Store, a: seq<StorageMigration>, b: seq<StorageMigration>, c: Codec)
    ensures Run(s, a + b, c) == (var p := Run(s, a, c); if p.threw then p else Run(p.store, b, c))
    decreases |a|
  {
    if a == [] {
      assert a + b == b;
    } else {
      assert (a + b)[0] == a[0];
      assert (a + b)[1..] == a[1..] + b;
      var p := Step(s, a[0], c);
      if !p.threw {
        RunAppend(p.store, a[1..], b, c);
      }
    }
  }

  /** A key that no descriptor names as source or possible target keeps its value through the whole pass. */
  lemma {:induction false} RunFrame(s: Store, ms: seq<StorageMigration>, c: Codec, k: string)
    requires forall i :: 0 <= i < |ms| ==> !MayTouch(ms[i], k)
    ensures Lookup(Run(s, ms, c).store.entries, k) == Lookup(s.entries, k)
    decreases |ms|
  {
    if ms != [] {
      var m := ms[0];
      assert !MayTouch(m, k);
      if m.mapTo.Transform? {
        assert m.mapTo.f(SourceValue(s, m, c)).key != k;
      }
      var p := Step(s, m, c);
      if !p.threw {
        forall i | 0 <= i < |ms[1..]|
          ensures !MayTouch(ms[1..][i], k)
        {
          assert ms[1..][i] == ms[i + 1];
        }
        RunFrame(p.store, ms[1..], c, k);
      }
    }
  }

  /** A rename copies a present source string unchanged to the target, then removes the source. */
  lemma RenameStep(s: Store, key: string, target: string, c: Codec)
    requires s.mode == Healthy
    ensures var r := Step(s, StorageMigration(key, Rename(target)), c);
      !r.threw && r.store.mode == Healthy &&
      r.store.entries == (if key in s.entries then s.entries[target := s.entries[key]] else s.entries) - {key}
  {
  }

  /** A rename whose target is its own key deletes the key. */
  lemma RenameOntoItselfDeletes(s: Store, key: string, c: Codec)
    requires s.mode == Healthy
    ensures key !in Step(s, StorageMigration(key, Rename(key)), c).store.entries
  {
    RenameStep(s, key, key, c);
  }

  /** A rename of an absent source leaves its target untouched and the store as it was. */
  lemma RenameAbsentSource(s: Store, key: string, target: string, c: Codec)
    requires !Unreadable(s.mode) && key !in s.entries
    ensures Step(s, StorageMigration(key, Rename(target)), c) == Progress(s, false)
  {
    assert s.entries - {key} == s.entries;
  }

  /**
   * A transform is given the parsed source; it writes the stringified new value at
   * the new key only when that value is not nullish, and removes the source only
   * when the new key differs from it.
   */
  lemma TransformStep(s: Store, key: string, f: Value -> Mapped, c: Codec)
    requires s.mode == Healthy
    ensures var mapped := f(SafeParse(c, Interpolate(Lookup(s.entries, key))));
      var written := if IsNullish(mapped.value) then s.entries else s.entries[mapped.key := c.stringify(mapped.value)];
      var r := Step(s, StorageMigration(key, Transform(f)), c);
      !r.threw && r.store.mode == Healthy &&
      r.store.entries == if mapped.key != key then written - {key} else written
  {
  }

  /** A delete descriptor removes its key and writes nothing. */
  lemma DiscardStep(s: Store, key: string, c: Codec)
    requires !Unreadable(s.mode)
    ensures Step(s, StorageMigration(key, Discard), c) == Progress(s.(entries := s.entries - {key}), false)
  {
  }

  /** On a disabled store the first read throws: nothing changes and the error propagates. */
  lemma DisabledPassThrows(s: Store, ms: seq<StorageMigration>, c: Codec)
    requires Unreadable(s.mode) && ms != []
    ensures Run(s, ms, c) == Progress(s, true)
  {
  }

  /** A stored "42" under "oldName", renamed to "newName", ends up under "newName" only. */
  lemma RenameExample(c: Codec)
    ensures Run(Store(map["oldName" := "42"], Healthy), [StorageMigration("oldName", Rename("newName"))], c)
         == Progress(Store(map["newName" := "42"], Healthy), false)
  {
    var s := Store(map["oldName" := "42"], Healthy);
    RenameStep(s, "oldName", "newName", c);
    assert s.entries["newName" := "42"] - {"oldName"} == map["newName" := "42"];
  }

  /** A stored "x" under "deprecated", mapped to delete, is gone and nothing is written. */
  lemma DiscardExample(c: Codec)
    ensures Run(Store(map["deprecated" := "x"], Healthy), [StorageMigration("deprecated", Discard)], c)
         == Progress(Store(map[], Healthy), false)
  {
    var s := Store(map["deprecated" := "x"], Healthy);
    assert s.entries - {"deprecated"} == map[];
  }

  method MigrateStorage(migrations: seq<StorageMigration>, window: LocalStorage, hasLocalStorage: bool, c: Codec)
    returns (threw: bool)
    modifies window
    ensures Progress(window.State(), threw) == Migrate(hasLocalStorage, old(window.State()), migrations, c)
  {
    threw := false;
    if !hasLocalStorage {
      return;
    }
    var i := 0;
    while i < |migrations|
      invariant 0 <= i <= |migrations|
      invariant Run(old(window.State()), migrations, c) == Run(window.State(), migrations[i..], c)
    {
      var m := migrations[i];
      assert migrations[i..][0] == m && migrations[i..][1..] == migrations[i + 1..];
      var read := window.GetItem(m.key);
      if read.Threw? {
        return true;
      }
      var value := read.value;
      match m.mapTo {
        case Rename(target) =>
          if value.Some? {
            var ok := window.SetItem(target, value.value);
            if !ok {
              return true;
            }
          }
          var ok := window.RemoveItem(m.key);
          if !ok {
            return true;
          }
        case Transform(f) =>
          var mapped := f(SafeParse(c, Interpolate(value)));
          if !IsNullish(mapped.value) {
            var ok := window.SetItem(mapped.key, c.stringify(mapped.value));
            if !ok {
              return true;
            }
          }
          if m.key != mapped.key {
            var ok := window.RemoveItem(m.key);
            if !ok {
              return true;
            }
          }
        case Discard =>
          var ok := window.RemoveItem(m.key);
          if !ok {
            return true;
          }
      }
      i := i + 1;
    }
  }
}
