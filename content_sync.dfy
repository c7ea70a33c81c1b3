/**
  The editor's content bookkeeping: the staleness test, a key/value cache
  whose entries expire by age, and a manager that notifies subscribers of a
  sync while refusing re-entrant syncs. The clock is the `now` parameter
  (milliseconds); callbacks are opaque identifiers.
*/
module ContentSync {
  import opened Wrappers

  /** Five minutes: the default age after which content should be refreshed. */
  const RefreshMaxAge: int := 5 * 60 * 1000
  /** Ten minutes: the default maximum age of a cache entry. */
  const CacheMaxAge: int := 10 * 60 * 1000

  /** `shouldRefreshContent(lastUpdate, maxAge)` evaluated at time `now`. */
  predicate ShouldRefreshContent(lastUpdate: Option<int>, now: int, maxAge: int := RefreshMaxAge)
  {
    lastUpdate.None? || now - lastUpdate.value > maxAge
  }

  /** Never updated means refresh; otherwise refresh strictly after `maxAge`
      milliseconds (five minutes by default), and from then on forever. */
  lemma ShouldRefreshBoundary(t: int, now: int, later: int)
    requires now <= later
    ensures ShouldRefreshContent(None, now)
    ensures !ShouldRefreshContent(Some(t), t + 300000)
    ensures ShouldRefreshContent(Some(t), t + 300001)
    ensures ShouldRefreshContent(Some(t), now) ==> ShouldRefreshContent(Some(t), later)
  {
  }

  // ---------------------------------------------------------------- cache

  /** `{ data, timestamp }`, the timestamp in milliseconds. */
  datatype Entry<T> = Entry(data: T, timestamp: int)

  /** The age test shared by `get` and `has`: strictly older than `maxAge`. */
  predicate Expired<T>(e: Entry<T>, now: int, maxAge: int)
  {
    now - e.timestamp > maxAge
  }

  /** What `get(key)` returns at time `now` on the map `m`. */
  function Lookup<T>(m: map<string, Entry<T>>, key: string, now: int, maxAge: int): Option<T>
  {
    if key in m && !Expired(m[key], now, maxAge) then Some(m[key].data) else None
  }

  /** The map after `get(key)` or `has(key)` at time `now`: an expired entry is deleted. */
  function Evict<T>(m: map<string, Entry<T>>, key: string, now: int, maxAge: int): map<string, Entry<T>>
  {
    if key in m && Expired(m[key], now, maxAge) then m - {key} else m
  }

  /** The cache's expiry and the staleness test are the same rule. */
  lemma ExpiredIsStale<T>(e: Entry<T>, now: int, maxAge: int)
    ensures Expired(e, now, maxAge) == ShouldRefreshContent(Some(e.timestamp), now, maxAge)
  {
  }

  /** Data just stored is returned until it is more than `maxAge` old, and
      not after; a negative `maxAge` expires it at once. */
  lemma SetThenLookup<T>(m: map<string, Entry<T>>, key: string, d: T, now: int, later: int, maxAge: int)
    ensures Lookup(m[key := Entry(d, now)], key, later, maxAge) ==
              if later - now <= maxAge then Some(d) else None
  {
  }

  /** Storing, reading or evicting one key leaves every other key's answer alone. */
  lemma OtherKeysUnaffected<T>(m: map<string, Entry<T>>, key: string, other: string, d: T,
                               now: int, later: int, maxAge: int)
    requires other != key
    ensures Lookup(m[key := Entry(d, now)], other, later, maxAge) == Lookup(m, other, later, maxAge)
    ensures Lookup(Evict(m, key, now, maxAge), other, later, maxAge) == Lookup(m, other, later, maxAge)
  {
  }

  /** Eviction changes no answer given at the same moment or later, and a
      second eviction changes nothing. */
  lemma EvictionIsInvisible<T>(m: map<string, Entry<T>>, key: string, now: int, later: int, maxAge: int)
    requires now <= later
    ensures Lookup(Evict(m, key, now, maxAge), key, later, maxAge) == Lookup(m, key, later, maxAge)
    ensures Evict(Evict(m, key, now, maxAge), key, now, maxAge) == Evict(m, key, now, maxAge)
    ensures Lookup(m, key, now, maxAge).None? ==> key !in Evict(m, key, now, maxAge)
  {
  }

  /** `ContentCache`: a map from key to data and the time it was stored. */
  class ContentCache<T> {
    var entries: map<string, Entry<T>>
    const maxAge: int

    constructor (maxAge: int := CacheMaxAge)
      ensures this.maxAge == maxAge && entries == map[]
    {
      this.maxAge := maxAge;
      entries := map[];
    }

    /** Stores `data` under `key` with timestamp `now`, replacing any entry. */
    method Set(key: string, data: T, now: int)
      modifies this
      ensures entries == old(entries)[key := Entry(data, now)]
    {
      entries := entries[key := Entry(data, now)];
    }

    /** The stored data while the entry is at most `maxAge` old; `None` for
        an absent key, and for an expired one, which is deleted. */
    method Get(key: string, now: int) returns (r: Option<T>)
      modifies this
      ensures r == Lookup(old(entries), key, now, maxAge)
      ensures entries == Evict(old(entries), key, now, maxAge)
    {
      if key !in entries {
        return None;
      }
      var entry := entries[key];
      if now - entry.timestamp > maxAge {
        entries := entries - {key};
        return None;
      }
      return Some(entry.data);
    }

    /** Empties the cache. */
    method Clear()
      modifies this
      ensures entries == map[]
    {
      entries := map[];
    }

    /** True exactly when `Get` would return data, with the same eviction. */
    method Has(key: string, now: int) returns (b: bool)
      modifies this
      ensures b == Lookup(old(entries), key, now, maxAge).Some?
      ensures entries == Evict(old(entries), key, now, maxAge)
    {
      if key !in entries {
        return false;
      }
      var entry := entries[key];
      if now - entry.timestamp > maxAge {
        entries := entries - {key};
        return false;
      }
      return true;
    }
  }

  /** After `Clear`, every key reads as absent at every time. */
  lemma ClearedCacheIsEmpty<T>(key: string, now: int, maxAge: int)
    ensures var empty: map<string, Entry<T>> := map[]; Lookup(empty, key, now, maxAge) == None
  {
  }

  // --------------------------------------------------------- sync manager

  /** A subscriber callback, known by identity only. */
  type CallbackId = nat

  /** What a callback does when notified: return, throw (the error is logged
      and the loop goes on), or call `sync()` again from inside the loop. */
  datatype Behaviour = Returns | Raises | Resyncs

  function BehaviourOf(cb: CallbackId, behaviour: map<CallbackId, Behaviour>): Behaviour
  {
    if cb in behaviour then behaviour[cb] else Returns
  }

  /** The callbacks among `calls` whose error is logged, in call order. */
  function Failures(calls: seq<CallbackId>, behaviour: map<CallbackId, Behaviour>): (r: seq<CallbackId>)
    ensures |r| <= |calls|
    ensures forall cb :: cb in r <==> cb in calls && BehaviourOf(cb, behaviour) == Raises
  {
    if calls == [] then []
    else (if BehaviourOf(calls[0], behaviour) == Raises then [calls[0]] else []) + Failures(calls[1..], behaviour)
  }

  predicate Distinct(s: seq<CallbackId>)
  {
    forall i, j :: 0 <= i < j < |s| ==> s[i] != s[j]
  }

  /** `Set.add`: a new callback goes last; a known one keeps its place. */
  function Added(s: seq<CallbackId>, cb: CallbackId): seq<CallbackId>
  {
    if cb in s then s else s + [cb]
  }

  /** `Set.delete`: drop the callback, keep the others in order. */
  function Removed(s: seq<CallbackId>, cb: CallbackId): (r: seq<CallbackId>)
    ensures forall x :: x in r <==> x in s && x != cb
  {
    if s == [] then []
    else (if s[0] == cb then [] else [s[0]]) + Removed(s[1..], cb)
  }

  /** Removing a callback that is absent changes nothing. */
  lemma {:induction false} RemoveAbsent(s: seq<CallbackId>, cb: CallbackId)
    requires cb !in s
    ensures Removed(s, cb) == s
  {
    if s != [] {
      RemoveAbsent(s[1..], cb);
    }
  }

  lemma {:induction false} RemovedAppend(a: seq<CallbackId>, b: seq<CallbackId>, cb: CallbackId)
    ensures Removed(a + b, cb) == Removed(a, cb) + Removed(b, cb)
  {
    if a == [] {
      assert a + b == b;
    } else {
      assert (a + b)[1..] == a[1..] + b;
      RemovedAppend(a[1..], b, cb);
    }
  }

  /** Removal keeps the subscriber list free of duplicates. */
  lemma {:induction false} RemovedDistinct(s: seq<CallbackId>, cb: CallbackId)
    requires Distinct(s)
    ensures Distinct(Removed(s, cb))
  {
    if s != [] {
      RemovedDistinct(s[1..], cb);
      assert s[0] !in s[1..];
    }
  }

  /** The unsubscribe function undoes its subscribe: it removes exactly that
      callback, and after a fresh subscription restores the previous list. */
  lemma SubscribeThenUnsubscribe(s: seq<CallbackId>, cb: CallbackId)
    ensures Removed(Added(s, cb), cb) == Removed(s, cb)
    ensures cb !in s ==> Removed(Added(s, cb), cb) == s
  {
    if cb !in s {
      RemovedAppend(s, [cb], cb);
      RemoveAbsent(s, cb);
      assert [cb][1..] == [];
    }
  }

  /** `SyncManager`: the subscriber set, in insertion order as a JavaScript
      `Set` iterates it, and the re-entry flag. */
  class SyncManager {
    var subscribers: seq<CallbackId>
    var isSyncing: bool

    ghost predicate Valid()
      reads this
    {
      Distinct(subscribers)
    }

    constructor ()
      ensures Valid() && subscribers == [] && !isSyncing
    {
      subscribers := [];
      isSyncing := false;
    }

    /** `subscribe(cb)`: adds `cb` to the set. */
    method Subscribe(cb: CallbackId)
      requires Valid()
      modifies this
      ensures Valid() && subscribers == Added(old(subscribers), cb) && isSyncing == old(isSyncing)
    {
      if cb !in subscribers {
        subscribers := subscribers + [cb];
      }
    }

    /** The function `subscribe(cb)` returns: deletes `cb` only. */
    method Unsubscribe(cb: CallbackId)
      requires Valid()
      modifies this
      ensures Valid() && subscribers == Removed(old(subscribers), cb) && isSyncing == old(isSyncing)
    {
      RemovedDistinct(subscribers, cb);
      subscribers := Removed(subscribers, cb);
    }

    /** `sync()`: returns at once when a sync is running; otherwise notifies
        every subscriber once, in order, whatever earlier callbacks did, and
        clears the flag at the end. `calls` lists the callbacks invoked,
        `errors` those whose error was logged. */
    method Sync(behaviour: map<CallbackId, Behaviour>) returns (calls: seq<CallbackId>, errors: seq<CallbackId>)
      requires Valid()
      modifies this
      ensures Valid() && subscribers == old(subscribers)
      ensures old(isSyncing) ==> calls == [] && errors == [] && isSyncing
      ensures !old(isSyncing) ==>
                calls == old(subscribers) && errors == Failures(calls, behaviour) && !isSyncing
      decreases if isSyncing then 0 else 1
    {
      calls, errors := [], [];
      if isSyncing {
        return;
      }
      isSyncing := true;
      var i := 0;
      while i < |subscribers|
        invariant 0 <= i <= |subscribers|
        invariant Valid() && subscribers == old(subscribers) && isSyncing
        invariant calls == subscribers[..i]
        invariant errors == Failures(calls, behaviour)
      {
        var cb := subscribers[i];
        match BehaviourOf(cb, behaviour) {
          case Returns =>
          case Raises =>
            errors := errors + [cb];
          case Resyncs =>
            var nestedCalls, nestedErrors := Sync(behaviour);
            assert nestedCalls == [] && nestedErrors == [];
        }
        FailuresAppend(calls, [cb], behaviour);
        calls := calls + [cb];
        i := i + 1;
      }
      isSyncing := false;
    }

    /** The `isCurrentlySyncing` getter. */
    function IsCurrentlySyncing(): (r: bool)
      reads this
      ensures r <==> isSyncing
    {
      isSyncing
    }
  }

  lemma {:induction false} FailuresAppend(a: seq<CallbackId>, b: seq<CallbackId>, behaviour: map<CallbackId, Behaviour>)
    ensures Failures(a + b, behaviour) == Failures(a, behaviour) + Failures(b, behaviour)
  {
    if a == [] {
      assert a + b == b;
    } else {
      assert (a + b)[1..] == a[1..] + b;
      FailuresAppend(a[1..], b, behaviour);
    }
  }

  /** A client run: two subscribers, the first throwing, the second
      re-entering `sync()`; both are notified once and the flag ends clear. */
  method SyncScenario()
  {
    var manager := new SyncManager();
    manager.Subscribe(1);
    manager.Subscribe(2);
    manager.Subscribe(1);
    var calls, errors := manager.Sync(map[1 := Raises, 2 := Resyncs]);
    assert calls == [1, 2];
    assert errors == [1] by {
      assert calls[1..] == [2];
      assert [2][1..] == [];
    }
    assert !manager.IsCurrentlySyncing();
    manager.Unsubscribe(1);
    assert manager.subscribers == [2] by {
      assert [1, 2][1..] == [2];
      assert [2][1..] == [];
    }
  }
}
