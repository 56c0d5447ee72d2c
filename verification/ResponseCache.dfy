/** `response_cache`: a cache that drops the least recently used entry and entries that are too old. */
module ResponseCaching {
  import opened Options

  datatype Entry = Entry(key: string, savedAt: int, response: string)

  function Position(store: seq<Entry>, key: string): (k: nat)
    ensures k <= |store| && (k < |store| ==> store[k].key == key)
    ensures forall i :: 0 <= i < k ==> store[i].key != key
  {
    if store == [] || store[0].key == key then 0 else 1 + Position(store[1..], key)
  }

  /** Taking a key out of the ordered dictionary. */
  function Without(store: seq<Entry>, key: string): seq<Entry> {
    var k := Position(store, key);
    if k < |store| then store[..k] + store[k + 1..] else store
  }

  function Newest(store: seq<Entry>, maxItems: nat): seq<Entry> {
    if |store| > maxItems then store[|store| - maxItems..] else store
  }

  /** What `get` returns and what it leaves of the store. */
  function Got(store: seq<Entry>, key: string, now: int, ttl: int): (Option<string>, seq<Entry>) {
    var k := Position(store, key);
    if k >= |store| then (None, store)
    else if now - store[k].savedAt > ttl then (None, Without(store, key))
    else (Some(store[k].response), Without(store, key) + [store[k]])
  }

  function PutIn(store: seq<Entry>, key: string, response: string, now: int, maxItems: nat): seq<Entry> {
    Newest(Without(store, key) + [Entry(key, now, response)], maxItems)
  }

  class ResponseCache {
    const maxItems: nat
    const ttlSeconds: int
    /** The ordered dictionary, oldest first. */
    var store: seq<Entry>

    constructor (maxItems: int, ttlSeconds: int)
      ensures store == []
      ensures this.maxItems == (if maxItems > 0 then maxItems else 50)
      ensures this.ttlSeconds == (if ttlSeconds > 0 then ttlSeconds else 600)
    {
      this.maxItems := if maxItems > 0 then maxItems else 50;
      this.ttlSeconds := if ttlSeconds > 0 then ttlSeconds else 600;
      store := [];
    }

    method Get(key: string, now: int) returns (found: Option<string>)
      modifies this`store
      ensures (found, store) == Got(old(store), key, now, ttlSeconds)
    {
      var k := Position(store, key);
      if k >= |store| {
        return None;
      }
      var item := store[k];
      store := store[..k] + store[k + 1..];
      if now - item.savedAt > ttlSeconds {
        return None;
      }
      store := store + [item];
      found := Some(item.response);
    }

    method Set(key: string, response: string, now: int)
      modifies this`store
      ensures store == PutIn(old(store), key, response, now, maxItems)
    {
      var k := Position(store, key);
      if k < |store| {
        store := store[..k] + store[k + 1..];
      }
      store := store + [Entry(key, now, response)];
      ghost var all := store;
      while |store| > maxItems
        invariant |store| <= |all| && store == all[|all| - |store|..]
        invariant |all| <= maxItems ==> store == all
        invariant |all| > maxItems ==> |store| >= maxItems
      {
        store := store[1..];
      }
    }
  }

  // ---------- runs ----------

  datatype Event = Get(key: string, now: int) | Set(key: string, response: string, now: int)

  function Next(store: seq<Entry>, e: Event, maxItems: nat, ttl: int): seq<Entry> {
    match e
    case Get(key, now) => Got(store, key, now, ttl).1
    case Set(key, response, now) => PutIn(store, key, response, now, maxItems)
  }

  predicate IsHit(store: seq<Entry>, e: Event, ttl: int) {
    e.Get? && Got(store, e.key, e.now, ttl).0.Some?
  }

  /** The key was stored or looked up with success. */
  predicate Touches(store: seq<Entry>, e: Event, ttl: int) {
    e.Set? || IsHit(store, e, ttl)
  }

  ghost predicate DistinctKeys(store: seq<Entry>) {
    forall i, j :: 0 <= i < j < |store| ==> store[i].key != store[j].key
  }

  ghost predicate IsRun(stores: seq<seq<Entry>>, events: seq<Event>, maxItems: nat, ttl: int) {
    && |stores| == |events| + 1 && stores[0] == [] && maxItems > 0
    && forall i :: 0 <= i < |events| ==> stores[i + 1] == Next(stores[i], events[i], maxItems, ttl)
  }

  lemma RunLength(stores: seq<seq<Entry>>, events: seq<Event>, maxItems: nat, ttl: int)
    requires IsRun(stores, events, maxItems, ttl)
    ensures |stores| == |events| + 1
  {
  }

  lemma RunStep(stores: seq<seq<Entry>>, events: seq<Event>, maxItems: nat, ttl: int, i: nat)
    requires IsRun(stores, events, maxItems, ttl) && i < |events|
    ensures |stores| == |events| + 1 && stores[i + 1] == Next(stores[i], events[i], maxItems, ttl)
  {
  }

  lemma WithoutMeans(store: seq<Entry>, key: string)
    requires DistinctKeys(store)
    ensures DistinctKeys(Without(store, key)) && |Without(store, key)| <= |store|
    ensures forall e :: e in Without(store, key) <==> e in store && e.key != key
  {
    var k := Position(store, key);
    if k < |store| {
      var rest := Without(store, key);
      assert forall i :: 0 <= i < |rest| ==> rest[i] == if i < k then store[i] else store[i + 1];
      forall e | e in store && e.key != key
        ensures e in rest
      {
        var i :| 0 <= i < |store| && store[i] == e;
        assert i < k ==> rest[i] == e;
        assert i > k ==> rest[i - 1] == e;
      }
    }
  }

  /** A lookup drops the key's entry if it has expired, and no other. */
  lemma LookupDropsExpired(store: seq<Entry>, key: string, now: int, ttl: int)
    requires DistinctKeys(store)
    ensures forall e :: e in Got(store, key, now, ttl).1 <==> e in store && !(e.key == key && now - e.savedAt > ttl)
  {
    WithoutMeans(store, key);
    hide Without;
    var k := Position(store, key);
    assert forall e :: e in store && e.key == key ==> k < |store| && e == store[k];
  }

  lemma NextKeepsShape(store: seq<Entry>, e: Event, maxItems: nat, ttl: int)
    requires DistinctKeys(store) && |store| <= maxItems
    ensures DistinctKeys(Next(store, e, maxItems, ttl)) && |Next(store, e, maxItems, ttl)| <= maxItems
  {
    WithoutMeans(store, e.key);
    hide Without;
    var rest := Without(store, e.key);
    var k := Position(store, e.key);
    if k < |store| {
      assert store[k] !in rest;
      LengthWithout(store, e.key);
    }
  }

  lemma LengthWithout(store: seq<Entry>, key: string)
    ensures Position(store, key) < |store| ==> |Without(store, key)| == |store| - 1
  {
  }

  lemma {:induction false} RunKeepsShape(
    stores: seq<seq<Entry>>, events: seq<Event>, maxItems: nat, ttl: int, i: nat)
    requires IsRun(stores, events, maxItems, ttl) && i <= |events|
    ensures DistinctKeys(stores[i]) && |stores[i]| <= maxItems
  {
    if i > 0 {
      RunKeepsShape(stores, events, maxItems, ttl, i - 1);
      hide Next, DistinctKeys;
      NextKeepsShape(stores[i - 1], events[i - 1], maxItems, ttl);
    }
  }

  /** Where an entry in the next store comes from. */
  lemma EntryOrigin(store: seq<Entry>, e: Event, maxItems: nat, ttl: int, x: Entry)
    requires DistinctKeys(store) && x in Next(store, e, maxItems, ttl)
    ensures x in store || (e.Set? && x == Entry(e.key, e.now, e.response))
    ensures e.Set? && x.key == e.key ==> x == Entry(e.key, e.now, e.response)
  {
    WithoutMeans(store, e.key);
    hide Without;
  }

  /** The entry was written by the last `Set` of its key. */
  ghost predicate LastSet(events: seq<Event>, i: nat, j: nat, x: Entry) {
    && i < j <= |events| && events[i] == Set(x.key, x.response, x.savedAt)
    && forall k :: i < k < j && events[k].Set? ==> events[k].key != x.key
  }

  lemma FirstIsEmpty(stores: seq<seq<Entry>>, events: seq<Event>, maxItems: nat, ttl: int, j: nat, x: Entry)
    requires IsRun(stores, events, maxItems, ttl) && j <= |events| && x in stores[j]
    ensures j > 0 && |stores| == |events| + 1
  {
  }

  lemma {:induction false} EntryIsLastSet(
    stores: seq<seq<Entry>>, events: seq<Event>, maxItems: nat, ttl: int, j: nat, x: Entry) returns (i: nat)
    requires IsRun(stores, events, maxItems, ttl) && j <= |events| && x in stores[j]
    ensures LastSet(events, i, j, x)
  {
    hide *;
    FirstIsEmpty(stores, events, maxItems, ttl, j, x);
    RunStep(stores, events, maxItems, ttl, j - 1);
    RunKeepsShape(stores, events, maxItems, ttl, j - 1);
    EntryOrigin(stores[j - 1], events[j - 1], maxItems, ttl, x);
    if events[j - 1].Set? && events[j - 1].key == x.key {
      i := j - 1;
      LastSetNow(events, j, x);
    } else {
      i := EntryIsLastSet(stores, events, maxItems, ttl, j - 1, x);
      LastSetStays(events, i, j, x);
    }
  }

  lemma LastSetNow(events: seq<Event>, j: nat, x: Entry)
    requires 0 < j <= |events| && events[j - 1] == Set(x.key, x.response, x.savedAt)
    ensures LastSet(events, j - 1, j, x)
  {
  }

  lemma LastSetStays(events: seq<Event>, i: nat, j: nat, x: Entry)
    requires 0 < j <= |events| && LastSet(events, i, j - 1, x)
    requires events[j - 1].Set? ==> events[j - 1].key != x.key
    ensures LastSet(events, i, j, x)
  {
  }

  /** A lookup returns nothing but the last value stored for its key, and that only within its lifetime. */
  lemma LookupIsLastSet(
    stores: seq<seq<Entry>>, events: seq<Event>, maxItems: nat, ttl: int, j: nat) returns (i: nat)
    requires IsRun(stores, events, maxItems, ttl) && j < |events| && IsHit(stores[j], events[j], ttl)
    ensures i < j && events[i].Set? && events[i].key == events[j].key && events[j].now - events[i].now <= ttl
    ensures Got(stores[j], events[j].key, events[j].now, ttl).0 == Some(events[i].response)
    ensures forall k :: i < k < j && events[k].Set? ==> events[k].key != events[j].key
  {
    var x := stores[j][Position(stores[j], events[j].key)];
    hide IsRun, Next;
    i := EntryIsLastSet(stores, events, maxItems, ttl, j, x);
  }

  // ---------- how long an entry stays ----------

  /** The entry is stored, and every key behind it was touched since it was touched itself. */
  ghost predicate Recent(store: seq<Entry>, x: Entry, touched: set<string>) {
    x.key !in touched && exists p :: IsAt(store, x, p) && forall q :: p < q < |store| ==> store[q].key in touched
  }

  predicate IsAt(store: seq<Entry>, x: Entry, p: int) {
    0 <= p < |store| && store[p] == x
  }

  /** The other keys touched by the events from `m` on. */
  function TouchedKeys(stores: seq<seq<Entry>>, events: seq<Event>, m: nat, n: nat, ttl: int): set<string>
    requires m <= n <= |events| && |stores| == |events| + 1
  {
    if n == m then {}
    else
      TouchedKeys(stores, events, m, n - 1, ttl)
      + if Touches(stores[n - 1], events[n - 1], ttl) then {events[n - 1].key} else {}
  }

  lemma WithoutAt(store: seq<Entry>, key: string, i: nat)
    requires i < |Without(store, key)|
    ensures var k := Position(store, key);
            i + (if i < k then 0 else 1) <= |store|
            && Without(store, key)[i] == if i < k || k == |store| then store[i] else store[i + 1]
  {
  }

  lemma RecentWithout(store: seq<Entry>, x: Entry, touched: set<string>, key: string)
    requires Recent(store, x, touched) && key != x.key
    ensures Recent(Without(store, key), x, touched)
  {
    var p :| IsAt(store, x, p) && forall q :: p < q < |store| ==> store[q].key in touched;
    var k, rest := Position(store, key), Without(store, key);
    if k < |store| {
      assert |rest| == |store| - 1;
      var r := if p < k then p else p - 1;
      hide Position, Without;
      forall i | 0 <= i < |rest|
        ensures rest[i] == if i < k then store[i] else store[i + 1]
      {
        WithoutAt(store, key, i);
      }
      assert IsAt(rest, x, r);
    }
  }

  lemma RecentAppend(store: seq<Entry>, x: Entry, touched: set<string>, y: Entry)
    requires Recent(store, x, touched) && y.key != x.key
    ensures Recent(store + [y], x, touched + {y.key})
  {
    var p :| IsAt(store, x, p) && forall q :: p < q < |store| ==> store[q].key in touched;
    assert IsAt(store + [y], x, p);
  }

  lemma {:induction false} BehindFits(store: seq<Entry>, keys: set<string>)
    requires DistinctKeys(store) && forall e :: e in store ==> e.key in keys
    ensures |store| <= |keys|
  {
    if store != [] {
      var rest, last := store[..|store| - 1], store[|store| - 1];
      assert last in store;
      BehindFits(rest, keys - {last.key});
    }
  }

  /** Dropping the oldest entries does not reach an entry with few keys behind it. */
  lemma RecentNewest(store: seq<Entry>, x: Entry, touched: set<string>, maxItems: nat)
    requires Recent(store, x, touched) && DistinctKeys(store) && |touched| < maxItems
    ensures Recent(Newest(store, maxItems), x, touched)
  {
    var p :| IsAt(store, x, p) && forall q :: p < q < |store| ==> store[q].key in touched;
    if |store| > maxItems {
      BehindFits(store[p + 1..], touched);
      assert IsAt(Newest(store, maxItems), x, p - (|store| - maxItems));
    }
  }

  lemma RecentAfterGet(store: seq<Entry>, key: string, now: int, ttl: int, x: Entry, touched: set<string>)
    requires DistinctKeys(store) && Recent(store, x, touched) && key != x.key
    ensures var found := Got(store, key, now, ttl);
            Recent(found.1, x, if found.0.Some? then touched + {key} else touched)
  {
    hide Without, Recent;
    RecentWithout(store, x, touched, key);
    var k := Position(store, key);
    if k < |store| {
      RecentAppend(Without(store, key), x, touched, store[k]);
    }
  }

  lemma RecentAfterSet(store: seq<Entry>, y: Entry, maxItems: nat, x: Entry, touched: set<string>)
    requires DistinctKeys(store) && Recent(store, x, touched) && y.key != x.key
    requires |touched + {y.key}| < maxItems
    ensures Recent(PutIn(store, y.key, y.response, y.savedAt, maxItems), x, touched + {y.key})
  {
    hide Without, Recent, Newest;
    WithoutMeans(store, y.key);
    RecentWithout(store, x, touched, y.key);
    var rest := Without(store, y.key);
    RecentAppend(rest, x, touched, y);
    RecentNewest(rest + [y], x, touched + {y.key}, maxItems);
  }

  lemma RecentSurvives(store: seq<Entry>, e: Event, maxItems: nat, ttl: int, x: Entry, touched: set<string>)
    requires DistinctKeys(store) && Recent(store, x, touched) && e.key != x.key
    requires var now := touched + if Touches(store, e, ttl) then {e.key} else {}; |now| < maxItems
    ensures Recent(Next(store, e, maxItems, ttl), x, touched + if Touches(store, e, ttl) then {e.key} else {})
  {
    hide Recent, DistinctKeys, Got, PutIn;
    assert touched + {} == touched;
    match e {
      case Get(key, now) => RecentAfterGet(store, key, now, ttl, x, touched);
      case Set(key, response, now) => RecentAfterSet(store, Entry(key, now, response), maxItems, x, touched);
    }
  }

  lemma Smaller(a: set<string>, b: set<string>)
    ensures |a| <= |a + b|
  {
    assert a + b == a + (b - a);
  }

  ghost predicate NotStored(events: seq<Event>, from: nat, to: nat, key: string)
    requires to <= |events|
  {
    forall k :: from <= k < to && events[k].Set? ==> events[k].key != key
  }

  /** No event between the two is about the key. */
  ghost predicate Untouched(events: seq<Event>, from: nat, to: nat, key: string)
    requires to <= |events|
  {
    forall k :: from <= k < to ==> events[k].key != key
  }

  lemma UntouchedLess(events: seq<Event>, m: nat, n: nat, key: string)
    requires m < n <= |events| && Untouched(events, m, n, key)
    ensures Untouched(events, m, n - 1, key) && events[n - 1].key != key
  {
  }

  lemma {:induction false} RecentThrough(
    stores: seq<seq<Entry>>, events: seq<Event>, maxItems: nat, ttl: int, m: nat, n: nat, x: Entry)
    requires IsRun(stores, events, maxItems, ttl) && m <= n <= |events| && Recent(stores[m], x, {})
    requires Untouched(events, m, n, x.key)
    requires |TouchedKeys(stores, events, m, n, ttl)| < maxItems
    ensures Recent(stores[n], x, TouchedKeys(stores, events, m, n, ttl))
    decreases n
  {
    hide *;
    RunLength(stores, events, maxItems, ttl);
    TouchedUnfolds(stores, events, m, n, ttl);
    if n > m {
      var e := events[n - 1];
      UntouchedLess(events, m, n, x.key);
      var before := TouchedKeys(stores, events, m, n - 1, ttl);
      RunStep(stores, events, maxItems, ttl, n - 1);
      Smaller(before, if Touches(stores[n - 1], e, ttl) then {e.key} else {});
      RunKeepsShape(stores, events, maxItems, ttl, n - 1);
      RecentThrough(stores, events, maxItems, ttl, m, n - 1, x);
      RecentSurvives(stores[n - 1], e, maxItems, ttl, x, before);
    }
  }

  lemma TouchedUnfolds(stores: seq<seq<Entry>>, events: seq<Event>, m: nat, n: nat, ttl: int)
    requires m <= n <= |events| && |stores| == |events| + 1
    ensures TouchedKeys(stores, events, m, m, ttl) == {}
    ensures n > m ==>
              TouchedKeys(stores, events, m, n, ttl)
              == TouchedKeys(stores, events, m, n - 1, ttl)
                 + if Touches(stores[n - 1], events[n - 1], ttl) then {events[n - 1].key} else {}
  {
  }

  /** After a touch the entry of the last `Set` is the newest one. */
  lemma RecentAfterTouch(
    stores: seq<seq<Entry>>, events: seq<Event>, maxItems: nat, ttl: int, i: nat, m: nat)
    requires IsRun(stores, events, maxItems, ttl) && i <= m < |events| && events[i].Set?
    requires NotStored(events, i + 1, m + 1, events[i].key)
    requires m == i || (events[m].key == events[i].key && IsHit(stores[m], events[m], ttl))
    ensures Recent(stores[m + 1], Entry(events[i].key, events[i].now, events[i].response), {})
  {
    var x := Entry(events[i].key, events[i].now, events[i].response);
    var store := stores[m + 1];
    if m > i {
      var found := stores[m][Position(stores[m], x.key)];
      var last := EntryIsLastSet(stores, events, maxItems, ttl, m, found);
      assert last == i;
      assert found == x;
    }
    assert IsAt(store, x, |store| - 1);
  }

  /**
   A lookup within the lifetime finds the last value stored for its key whenever fewer than `maxItems`
   other keys were stored or found since the key was last stored or found.
   */
  lemma LookupFinds(
    stores: seq<seq<Entry>>, events: seq<Event>, maxItems: nat, ttl: int, i: nat, m: nat, j: nat)
    requires IsRun(stores, events, maxItems, ttl) && i <= m < j < |events|
    requires events[i].Set? && events[j].Get? && events[j].key == events[i].key
    requires events[j].now - events[i].now <= ttl
    requires NotStored(events, i + 1, m + 1, events[i].key)
    requires m == i || (events[m].key == events[i].key && IsHit(stores[m], events[m], ttl))
    requires Untouched(events, m + 1, j, events[i].key)
    requires |TouchedKeys(stores, events, m + 1, j, ttl)| < maxItems
    ensures Got(stores[j], events[j].key, events[j].now, ttl).0 == Some(events[i].response)
  {
    hide *;
    RunLength(stores, events, maxItems, ttl);
    RecentAfterTouch(stores, events, maxItems, ttl, i, m);
    var x := Entry(events[i].key, events[i].now, events[i].response);
    RecentLookup(stores, events, maxItems, ttl, m + 1, j, x, events[j].now);
  }

  lemma RecentLookup(
    stores: seq<seq<Entry>>, events: seq<Event>, maxItems: nat, ttl: int, m: nat, j: nat, x: Entry, now: int)
    requires IsRun(stores, events, maxItems, ttl) && m <= j < |events| && now - x.savedAt <= ttl
    requires Recent(stores[m], x, {}) && Untouched(events, m, j, x.key)
    requires |TouchedKeys(stores, events, m, j, ttl)| < maxItems
    ensures Got(stores[j], x.key, now, ttl).0 == Some(x.response)
  {
    hide *;
    RunLength(stores, events, maxItems, ttl);
    RunKeepsShape(stores, events, maxItems, ttl, j);
    RecentThrough(stores, events, maxItems, ttl, m, j, x);
    RecentIsFound(stores[j], x, TouchedKeys(stores, events, m, j, ttl), now, ttl);
  }

  lemma RecentIsFound(store: seq<Entry>, x: Entry, touched: set<string>, now: int, ttl: int)
    requires Recent(store, x, touched) && DistinctKeys(store) && now - x.savedAt <= ttl
    ensures Got(store, x.key, now, ttl).0 == Some(x.response)
  {
    var p :| IsAt(store, x, p);
    assert Position(store, x.key) == p;
  }
}
