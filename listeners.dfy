/**
 The listener registry of package `mqtt`: a table from listener id to
 listener, updated in place, with bulk start (`ServeAll`) and bulk stop
 (`CloseAll`) that first take a snapshot of the registered ids.
 */
module Mqtt {
  import Callbacks
  import Listener

  /** No two positions of `ids` hold the same id. */
  ghost predicate Distinct(ids: seq<string>)
  {
    forall i, j :: 0 <= i < j < |ids| ==> ids[i] != ids[j]
  }

  /**
   `ids` is a snapshot of the key set `keys`: every key exactly once, in no
   particular order.
   */
  ghost predicate IsSnapshotOf(ids: seq<string>, keys: set<string>)
  {
    Distinct(ids) && forall x :: x in ids <==> x in keys
  }

  /** Removing the first id of a snapshot leaves a snapshot of the other keys. */
  lemma SnapshotTail(ids: seq<string>, keys: set<string>)
    requires IsSnapshotOf(ids, keys) && ids != []
    ensures ids[0] in keys && IsSnapshotOf(ids[1..], keys - {ids[0]})
  {
  }

  /** A snapshot has as many entries as there are keys. */
  lemma {:induction false} SnapshotLength(ids: seq<string>, keys: set<string>)
    requires IsSnapshotOf(ids, keys)
    ensures |ids| == |keys|
  {
    if ids == [] {
      assert forall x :: x !in keys;
      assert keys == {};
    } else {
      SnapshotTail(ids, keys);
      SnapshotLength(ids[1..], keys - {ids[0]});
    }
  }

  /** A snapshot holds every key exactly once and nothing else. */
  lemma {:induction false} SnapshotCountsOnce(ids: seq<string>, keys: set<string>)
    requires IsSnapshotOf(ids, keys)
    ensures forall x :: multiset(ids)[x] == if x in keys then 1 else 0
  {
    if ids != [] {
      SnapshotTail(ids, keys);
      SnapshotCountsOnce(ids[1..], keys - {ids[0]});
      assert ids == [ids[0]] + ids[1..];
      assert multiset(ids) == multiset{ids[0]} + multiset(ids[1..]);
    }
  }

  /** No order is promised: two snapshots of the same keys are permutations of each other. */
  lemma SnapshotsArePermutations(a: seq<string>, b: seq<string>, keys: set<string>)
    requires IsSnapshotOf(a, keys) && IsSnapshotOf(b, keys)
    ensures multiset(a) == multiset(b)
  {
    SnapshotCountsOnce(a, keys);
    SnapshotCountsOnce(b, keys);
  }

  /**
   A callback called once per id of a snapshot, after `before`, has been
   called once with every key and with nothing else.
   */
  lemma CallsAfterSnapshot(before: seq<string>, after: seq<string>, ids: seq<string>, keys: set<string>)
    requires after == before + ids && IsSnapshotOf(ids, keys)
    ensures |after| == |before| + |keys| && after[..|before|] == before
    ensures forall x :: multiset(after[|before|..])[x] == if x in keys then 1 else 0
  {
    assert after[|before|..] == ids;
    SnapshotLength(ids, keys);
    SnapshotCountsOnce(ids, keys);
  }

  class Listeners {
    /** The active listeners, keyed on their ids. */
    var internal: map<string, Listener.MockListener>

    /** Every listener is stored under its own id (as `Add` keys it). */
    ghost predicate Valid()
      reads this
    {
      forall k :: k in internal ==> internal[k].id == k
    }

    /** `NewListeners`: an empty registry. */
    constructor ()
      ensures Valid()
      ensures internal == map[] && |internal| == 0
    {
      internal := map[];
    }

    /** Registers `val` under its id, silently replacing a listener already stored there. */
    method Add(val: Listener.MockListener)
      requires Valid()
      modifies this
      ensures Valid()
      ensures val.id in internal && internal[val.id] == val
      ensures forall k :: k in old(internal) && k != val.id ==> k in internal && internal[k] == old(internal)[k]
      ensures internal.Keys == old(internal).Keys + {val.id}
      ensures |internal| == if val.id in old(internal) then old(|internal|) else old(|internal|) + 1
    {
      internal := internal[val.ID() := val];
    }

    /** Looks up `id`; an absent id yields a nil listener and false. */
    method Get(id: string) returns (val: Listener.MockListener?, ok: bool)
      requires Valid()
      ensures ok <==> id in internal
      ensures ok ==> val == internal[id] && val.id == id
      ensures !ok ==> val == null
    {
      if id in internal {
        val, ok := internal[id], true;
      } else {
        val, ok := null, false;
      }
    }

    /** The number of registered listeners. */
    method Len() returns (n: int)
      ensures n == |internal.Keys|
      ensures n == 0 <==> internal == map[]
    {
      n := |internal|;
    }

    /** Removes `id` without closing its listener; removing an absent id does nothing. */
    method Delete(id: string)
      requires Valid()
      modifies this
      ensures Valid()
      ensures id !in internal
      ensures forall k :: k in old(internal) && k != id ==> k in internal && internal[k] == old(internal)[k]
      ensures internal.Keys == old(internal).Keys - {id}
      ensures id !in old(internal) ==> internal == old(internal)
      ensures |internal| == if id in old(internal) then old(|internal|) - 1 else old(|internal|)
    {
      internal := internal - {id};
    }

    /**
     The loop shared by `ServeAll` and `CloseAll`: a buffer of `len(internal)`
     slots filled with the keys in whatever order the map yields them.
     */
    method SnapshotIds() returns (ids: seq<string>)
      ensures |ids| == |internal|
      ensures IsSnapshotOf(ids, internal.Keys)
      ensures forall j :: 0 <= j < |ids| ==> ids[j] in internal
    {
      var buf := new string[|internal|];
      var rest := internal.Keys;
      var i := 0;
      while rest != {}
        invariant 0 <= i <= buf.Length
        invariant i + |rest| == buf.Length
        invariant rest <= internal.Keys
        invariant Distinct(buf[..i])
        invariant forall j :: 0 <= j < i ==> buf[j] !in rest && buf[j] in internal
        invariant forall x :: x in internal ==> x in rest || x in buf[..i]
        decreases rest
      {
        var id :| id in rest;
        ghost var filled := buf[..i];
        buf[i] := id;
        i := i + 1;
        assert buf[..i] == filled + [id];
        rest := rest - {id};
      }
      ids := buf[..];
      assert ids == buf[..i];
    }

    /** Starts the accept loop of the listener registered as `id`; an absent id would be a nil dereference. */
    method Serve(id: string)
      requires Valid() && id in internal
      modifies internal[id]
      ensures internal[id].Serving
      ensures internal[id].Listening == old(internal[id].Listening)
      ensures internal[id].doneClosed == old(internal[id].doneClosed)
      ensures internal[id].ErrListen == old(internal[id].ErrListen)
    {
      var listener := internal[id];
      listener.BeginServe();
    }

    /** Starts every listener present in the snapshot. */
    method ServeAll()
      requires Valid()
      modifies internal.Values
      ensures internal == old(internal)
      ensures forall k :: k in internal ==> internal[k].Serving
      ensures forall k :: k in internal ==>
        && internal[k].Listening == old(internal[k].Listening)
        && internal[k].doneClosed == old(internal[k].doneClosed)
        && internal[k].ErrListen == old(internal[k].ErrListen)
    {
      var ids := SnapshotIds();
      ghost var started: set<string> := {};
      var n := 0;
      while n < |ids|
        invariant 0 <= n <= |ids|
        invariant forall j :: 0 <= j < |ids| ==> (ids[j] in started <==> j < n)
        invariant forall k :: k in internal ==>
          && internal[k].Listening == old(internal[k].Listening)
          && internal[k].doneClosed == old(internal[k].doneClosed)
          && internal[k].ErrListen == old(internal[k].ErrListen)
          && (k in started ==> internal[k].Serving)
      {
        Serve(ids[n]);
        started := started + {ids[n]};
        n := n + 1;
      }
      forall k | k in internal ensures k in started {
        var j :| 0 <= j < |ids| && ids[j] == k;
      }
    }

    /** Closes the listener registered as `id`; it must be registered and not yet closed. */
    method Close(id: string, closer: Callbacks.Closer)
      requires Valid() && id in internal && !internal[id].doneClosed
      modifies internal[id], closer
      ensures !internal[id].Serving && internal[id].doneClosed
      ensures closer.calls == old(closer.calls) + [id]
      ensures internal[id].Listening == old(internal[id].Listening)
      ensures internal[id].ErrListen == old(internal[id].ErrListen)
    {
      var listener := internal[id];
      listener.Close(closer);
    }

    /**
     Closes every listener present in the snapshot, once each. The registry
     map itself is left as it was.
     */
    method CloseAll(closer: Callbacks.Closer)
      requires Valid()
      requires forall k :: k in internal ==> !internal[k].doneClosed
      modifies internal.Values, closer
      ensures internal == old(internal)
      ensures forall k :: k in internal ==> !internal[k].Serving && internal[k].doneClosed
      ensures forall k :: k in internal ==>
        && internal[k].Listening == old(internal[k].Listening)
        && internal[k].ErrListen == old(internal[k].ErrListen)
      ensures |closer.calls| == old(|closer.calls|) + |internal|
      ensures closer.calls[..old(|closer.calls|)] == old(closer.calls)
      ensures forall x :: multiset(closer.calls[old(|closer.calls|)..])[x] == if x in internal then 1 else 0
    {
      var ids := SnapshotIds();
      ghost var closed: set<string> := {};
      var n := 0;
      while n < |ids|
        invariant 0 <= n <= |ids|
        invariant closer.calls == old(closer.calls) + ids[..n]
        invariant forall j :: 0 <= j < |ids| ==> (ids[j] in closed <==> j < n)
        invariant forall k :: k in internal ==>
          && internal[k].Listening == old(internal[k].Listening)
          && internal[k].ErrListen == old(internal[k].ErrListen)
          && (k in closed ==> !internal[k].Serving && internal[k].doneClosed)
          && (k !in closed ==> !internal[k].doneClosed)
      {
        Close(ids[n], closer);
        closed := closed + {ids[n]};
        n := n + 1;
      }
      assert ids[..n] == ids;
      CallsAfterSnapshot(old(closer.calls), closer.calls, ids, internal.Keys);
      forall k | k in internal ensures k in closed {
        var j :| 0 <= j < |ids| && ids[j] == k;
      }
    }
  }
}
