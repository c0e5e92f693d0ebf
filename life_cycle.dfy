/**
 * `LifeCycleStore`: the four ordered hook lists a server (and each of its
 * routes) carries. Hooks are user functions; the model keeps only their
 * identity, which is what the lists order.
 */
module LifeCycle {

  /** A user hook, known by its identity. */
  datatype Hook = Hook(id: nat)

  /** The four lists of a store, as one value. */
  datatype Hooks = Hooks(onRequest: seq<Hook>, onHandle: seq<Hook>, onResponse: seq<Hook>, onError: seq<Hook>)

  /** No hook at all: what a fresh store holds. */
  const NoHooks := Hooks([], [], [], [])

  /** List by list, the hooks of `a` followed by those of `b`. */
  function Concat(a: Hooks, b: Hooks): (r: Hooks)
    ensures |r.onRequest| == |a.onRequest| + |b.onRequest|
    ensures |r.onHandle| == |a.onHandle| + |b.onHandle|
    ensures |r.onResponse| == |a.onResponse| + |b.onResponse|
    ensures |r.onError| == |a.onError| + |b.onError|
    ensures r.onRequest[..|a.onRequest|] == a.onRequest && r.onRequest[|a.onRequest|..] == b.onRequest
    ensures r.onHandle[..|a.onHandle|] == a.onHandle && r.onHandle[|a.onHandle|..] == b.onHandle
    ensures r.onResponse[..|a.onResponse|] == a.onResponse && r.onResponse[|a.onResponse|..] == b.onResponse
    ensures r.onError[..|a.onError|] == a.onError && r.onError[|a.onError|..] == b.onError
  {
    Hooks(a.onRequest + b.onRequest, a.onHandle + b.onHandle,
          a.onResponse + b.onResponse, a.onError + b.onError)
  }

  /** Composing three stores does not depend on grouping (a plugin of a plugin). */
  lemma ConcatAssoc(a: Hooks, b: Hooks, c: Hooks)
    ensures Concat(Concat(a, b), c) == Concat(a, Concat(b, c))
  {
    assert (a.onRequest + b.onRequest) + c.onRequest == a.onRequest + (b.onRequest + c.onRequest);
    assert (a.onHandle + b.onHandle) + c.onHandle == a.onHandle + (b.onHandle + c.onHandle);
    assert (a.onResponse + b.onResponse) + c.onResponse == a.onResponse + (b.onResponse + c.onResponse);
    assert (a.onError + b.onError) + c.onError == a.onError + (b.onError + c.onError);
  }

  /** The empty store is neutral on both sides. */
  lemma ConcatNoHooks(a: Hooks)
    ensures Concat(NoHooks, a) == a && Concat(a, NoHooks) == a
  {
    assert [] + a.onRequest == a.onRequest && a.onRequest + [] == a.onRequest;
    assert [] + a.onHandle == a.onHandle && a.onHandle + [] == a.onHandle;
    assert [] + a.onResponse == a.onResponse && a.onResponse + [] == a.onResponse;
    assert [] + a.onError == a.onError && a.onError + [] == a.onError;
  }

  class LifeCycleStore {
    var onRequest: seq<Hook>
    var onHandle: seq<Hook>
    var onResponse: seq<Hook>
    var onError: seq<Hook>

    /** The four lists as one value. */
    function Lists(): Hooks
      reads this
    {
      Hooks(onRequest, onHandle, onResponse, onError)
    }

    /** A fresh store has four empty lists. */
    constructor()
      ensures Lists() == NoHooks
    {
      onRequest := [];
      onHandle := [];
      onResponse := [];
      onError := [];
    }

    /**
     * `clone()`: a new store whose lists equal this one's. Lists are values,
     * so later pushes to either store cannot reach the other.
     */
    method Clone() returns (c: LifeCycleStore)
      ensures fresh(c) && c.Lists() == Lists()
    {
      c := new LifeCycleStore();
      c.onRequest := onRequest;
      c.onHandle := onHandle;
      c.onResponse := onResponse;
      c.onError := onError;
    }

    /**
     * `prepend(store)`: each list becomes the argument's list followed by
     * the old one. Both sides are read before any list changes, so
     * `s.prepend(s)` doubles every list.
     */
    method Prepend(store: LifeCycleStore) returns (r: LifeCycleStore)
      modifies this
      ensures r == this
      ensures Lists() == Concat(old(store.Lists()), old(Lists()))
      ensures store != this ==> store.Lists() == old(store.Lists())
    {
      onRequest := store.onRequest + onRequest;
      onHandle := store.onHandle + onHandle;
      onResponse := store.onResponse + onResponse;
      onError := store.onError + onError;
      return this;
    }

    /** `append(store)`: each list becomes the old one followed by the argument's list. */
    method Append(store: LifeCycleStore) returns (r: LifeCycleStore)
      modifies this
      ensures r == this
      ensures Lists() == Concat(old(Lists()), old(store.Lists()))
      ensures store != this ==> store.Lists() == old(store.Lists())
    {
      onRequest := onRequest + store.onRequest;
      onHandle := onHandle + store.onHandle;
      onResponse := onResponse + store.onResponse;
      onError := onError + store.onError;
      return this;
    }
  }
}
