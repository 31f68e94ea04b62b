/**
 * The change bus of createPubSub.ts: a listener list owned by one bus, with
 * append, remove-all-matching and in-order dispatch. Listeners are opaque ids;
 * calling a listener is recorded as a `Call`, and a dispatch returns the calls
 * it made, in order.
 */
module PubSub {
  import opened Wrappers

  /** The kind of change a listener is told about. */
  datatype StorageChange = SET | REMOVE

  type ListenerId = nat

  /** One invocation `listener(key, change)`; `change` is `None` when the caller passes only the key. */
  datatype Call = Call(listener: ListenerId, key: string, change: Option<StorageChange>)

  /** The calls a dispatch over `ls` makes: one per entry, in list order. */
  function Dispatch(ls: seq<ListenerId>, key: string, change: Option<StorageChange>): (calls: seq<Call>)
    ensures |calls| == |ls|
    ensures forall i :: 0 <= i < |ls| ==> calls[i] == Call(ls[i], key, change)
  {
    if ls == [] then [] else [Call(ls[0], key, change)] + Dispatch(ls[1..], key, change)
  }

  /** `ls.filter(l => l !== listener)`. */
  function Without(ls: seq<ListenerId>, listener: ListenerId): (r: seq<ListenerId>)
    ensures listener !in r
    ensures forall x :: x != listener ==> multiset(r)[x] == multiset(ls)[x]
    ensures listener !in ls ==> r == ls
  {
    if ls == [] then []
    else
      assert ls == [ls[0]] + ls[1..];
      if ls[0] == listener then Without(ls[1..], listener)
      else [ls[0]] + Without(ls[1..], listener)
  }

  /** Filtering commutes with concatenation, so the listeners it keeps stay in their original order. */
  lemma {:induction false} WithoutKeepsOrder(a: seq<ListenerId>, b: seq<ListenerId>, listener: ListenerId)
    ensures Without(a + b, listener) == Without(a, listener) + Without(b, listener)
  {
    if a == [] {
      assert a + b == b;
    } else {
      assert (a + b)[0] == a[0];
      assert (a + b)[1..] == a[1..] + b;
      WithoutKeepsOrder(a[1..], b, listener);
    }
  }

  /** `listeners.forEach(listener => listener(key, change))`. */
  method Notify(ls: seq<ListenerId>, key: string, change: Option<StorageChange>) returns (calls: seq<Call>)
    ensures calls == Dispatch(ls, key, change)
  {
    calls := [];
    for i := 0 to |ls|
      invariant |calls| == i
      invariant forall j :: 0 <= j < i ==> calls[j] == Call(ls[j], key, change)
    {
      calls := calls + [Call(ls[i], key, change)];
    }
  }

  /** The package `createPubSub` returns; each call of the factory owns a fresh list. */
  class StoragePubSub {
    var listeners: seq<ListenerId>

    constructor ()
      ensures listeners == []
    {
      listeners := [];
    }

    method PublishStorageChange(key: string, change: StorageChange) returns (calls: seq<Call>)
      ensures calls == Dispatch(listeners, key, Some(change))
    {
      calls := Notify(listeners, key, Some(change));
    }

    method SubscribeToStorageChange(listener: ListenerId)
      modifies this
      ensures listeners == old(listeners) + [listener]
    {
      listeners := listeners + [listener];
    }

    method UnsubscribeFromStorageChange(listener: ListenerId)
      modifies this
      ensures listeners == Without(old(listeners), listener)
    {
      listeners := Without(listeners, listener);
    }
  }
}
