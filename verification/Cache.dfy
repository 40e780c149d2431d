/**
 The in-memory cache with expiring entries, proved against the history of its calls:
 what Get returns depends only on the last call that concerned the key, and background
 cleanup can never be observed.
 */
module Cache {
  import opened CacheKeys
  import opened Wrappers

  datatype Entry<V> = Entry(value: V, expiration: int)

  type Store<V> = map<string, Entry<V>>

  datatype Op<V> =
    | Set(key: CacheKey, value: V)
    | Delete(key: CacheKey)
    | Invalidate(pattern: string)
    | Clear
    | Cleanup

  /** A call and the clock reading it saw. */
  datatype Event<V> = Event(op: Op<V>, at: int)

  // ----- The effect of each call on the store -----

  function Apply<V>(store: Store<V>, ttl: int, e: Event<V>): Store<V> {
    match e.op
    case Set(key, value) => store[KeyString(key) := Entry(value, e.at + ttl)]
    case Delete(key) => store - {KeyString(key)}
    case Invalidate(pattern) => map k | k in store && !Selects(pattern, k) :: store[k]
    case Clear => map[]
    case Cleanup => map k | k in store && !(e.at > store[k].expiration) :: store[k]
  }

  function Replay<V>(history: seq<Event<V>>, ttl: int): Store<V> {
    if history == [] then map[]
    else Apply(Replay(history[..|history| - 1], ttl), ttl, history[|history| - 1])
  }

  function GetAt<V>(store: Store<V>, key: string, now: int): Option<V> {
    if key !in store then None
    else if now > store[key].expiration then None
    else Some(store[key].value)
  }

  // ----- What the history says -----

  /** The call concerns the key. Cleanup concerns no key. */
  predicate Affects<V>(op: Op<V>, key: string) {
    match op
    case Set(k, _) => KeyString(k) == key
    case Delete(k) => KeyString(k) == key
    case Invalidate(pattern) => Selects(pattern, key)
    case Clear => true
    case Cleanup => false
  }

  /** The last call that concerned the key, if there was one. */
  function LastAffecting<V>(history: seq<Event<V>>, key: string): Option<Event<V>> {
    if history == [] then None
    else
      var e := history[|history| - 1];
      if Affects(e.op, key) then Some(e) else LastAffecting(history[..|history| - 1], key)
  }

  /** The value of the last call that concerned the key, if that was a Set no more than
      ttl ago. */
  function Recall<V>(history: seq<Event<V>>, ttl: int, key: string, now: int): Option<V> {
    var last := LastAffecting(history, key);
    if last.Some? && last.value.op.Set? && now <= last.value.at + ttl then Some(last.value.op.value) else None
  }

  ghost predicate Monotone<V>(history: seq<Event<V>>) {
    forall i, j :: 0 <= i < j < |history| ==> history[i].at <= history[j].at
  }

  /** The clock has not gone back since the last call. */
  predicate NotBefore<V>(history: seq<Event<V>>, now: int) {
    history == [] || history[|history| - 1].at <= now
  }

  // ----- The store refines the history -----

  /** An entry in the store is the last Set of its key; a missing entry was removed by
      its last call or had expired when it was cleaned up. */
  lemma {:induction false} StoreRemembers<V>(history: seq<Event<V>>, ttl: int, key: string)
    requires Monotone(history)
    ensures var store, last := Replay(history, ttl), LastAffecting(history, key);
      && (key in store ==> last.Some? && last.value.op.Set? &&
                           store[key] == Entry(last.value.op.value, last.value.at + ttl))
      && (key !in store && last.Some? && last.value.op.Set? ==>
            history != [] && history[|history| - 1].at > last.value.at + ttl)
  {
    if history != [] {
      var n := |history| - 1;
      StoreRemembers(history[..n], ttl, key);
      if n > 0 {
        assert history[..n][n - 1].at <= history[n].at;
      }
    }
  }

  /** Over every run with a clock that never goes back, Get returns a value exactly when
      the last call that concerned the key was a Set of it no more than ttl ago. */
  lemma {:induction false} GetRefinesHistory<V>(history: seq<Event<V>>, ttl: int, key: string, now: int)
    requires Monotone(history) && NotBefore(history, now)
    ensures GetAt(Replay(history, ttl), key, now) == Recall(history, ttl, key, now)
  {
    StoreRemembers(history, ttl, key);
  }

  lemma LastOfNext<V>(front: seq<Event<V>>, e: Event<V>, key: string)
    ensures LastAffecting(front + [e], key) == if Affects(e.op, key) then Some(e) else LastAffecting(front, key)
  {
    assert (front + [e])[..|front|] == front;
  }

  lemma {:induction false} LastOfConcat<V>(front: seq<Event<V>>, back: seq<Event<V>>, key: string)
    ensures LastAffecting(front + back, key) ==
            if LastAffecting(back, key).Some? then LastAffecting(back, key) else LastAffecting(front, key)
  {
    if back == [] {
      assert front + back == front;
    } else {
      var n := |back| - 1;
      LastOfConcat(front, back[..n], key);
      assert front + back == (front + back[..n]) + [back[n]];
      LastOfNext(front + back[..n], back[n], key);
    }
  }

  lemma CleanupConcernsNoKey<V>(before: seq<Event<V>>, c: Event<V>, after: seq<Event<V>>, key: string)
    requires c.op == Cleanup
    ensures LastAffecting(before + [c] + after, key) == LastAffecting(before + after, key)
  {
    LastOfConcat(before + [c], after, key);
    LastOfConcat(before, after, key);
    LastOfNext(before, c, key);
  }

  lemma DropKeepsMonotone<V>(before: seq<Event<V>>, c: Event<V>, after: seq<Event<V>>, now: int)
    requires Monotone(before + [c] + after) && NotBefore(before + [c] + after, now)
    ensures Monotone(before + after) && NotBefore(before + after, now)
  {
    var with, without := before + [c] + after, before + after;
    var n := |before|;
    assert forall i :: 0 <= i < |without| ==> without[i] == with[if i < n then i else i + 1];
    if without != [] {
      var last := |without| - 1;
      assert without[last].at <= with[|with| - 1].at;
    }
  }

  /** A cleanup anywhere in a run never changes what a later Get returns. */
  lemma CleanupInvisible<V>(before: seq<Event<V>>, c: Event<V>, after: seq<Event<V>>, ttl: int, key: string, now: int)
    requires c.op == Cleanup
    requires Monotone(before + [c] + after) && NotBefore(before + [c] + after, now)
    ensures GetAt(Replay(before + [c] + after, ttl), key, now) == GetAt(Replay(before + after, ttl), key, now)
  {
    DropKeepsMonotone(before, c, after, now);
    GetRefinesHistory(before + [c] + after, ttl, key, now);
    GetRefinesHistory(before + after, ttl, key, now);
    CleanupConcernsNoKey(before, c, after, key);
  }

  // ----- One call after another -----

  /** After a Set the value is found up to and including ttl later, and not beyond. */
  lemma SetLastsForTtl<V>(history: seq<Event<V>>, ttl: int, k: CacheKey, value: V, at: int, now: int)
    ensures GetAt(Replay(history + [Event(Set(k, value), at)], ttl), KeyString(k), now) ==
            if now <= at + ttl then Some(value) else None
  {
    ReplayNext(history, Event(Set(k, value), at), ttl);
  }

  lemma ReplayNext<V>(history: seq<Event<V>>, e: Event<V>, ttl: int)
    ensures Replay(history + [e], ttl) == Apply(Replay(history, ttl), ttl, e)
  {
    assert (history + [e])[..|history|] == history;
  }

  /** A later Set of another text, a Delete of another text, or an invalidation of a
      pattern that is no star and no prefix, leaves what is found; so does a cleanup.
      Otherwise a Delete, an invalidation and a Clear leave nothing to be found. */
  lemma LaterCalls<V>(history: seq<Event<V>>, ttl: int, e: Event<V>, key: string, now: int)
    requires e.op.Cleanup? ==> e.at <= now
    ensures var before, after := GetAt(Replay(history, ttl), key, now), GetAt(Replay(history + [e], ttl), key, now);
      match e.op
      case Set(k, _) => KeyString(k) != key ==> after == before
      case Delete(k) => after == if KeyString(k) == key then None else before
      case Invalidate(p) => after == if p == "*" || "recommendation:" + p <= key then None else before
      case Clear => after == None
      case Cleanup => after == before
  {
    ReplayNext(history, e, ttl);
  }

  // ----- Patterns on reachable stores -----

  /** Every key in a store is a printed key. */
  lemma {:induction false} StoredKeysArePrinted<V>(history: seq<Event<V>>, ttl: int, key: string)
    requires key in Replay(history, ttl)
    ensures exists k :: key == KeyString(k)
  {
    var e := history[|history| - 1];
    var front := Replay(history[..|history| - 1], ttl);
    if e.op.Set? && key == KeyString(e.op.key) {
    } else {
      assert key in front;
      StoredKeysArePrinted(history[..|history| - 1], ttl, key);
    }
  }

  /** On reachable stores the empty pattern clears as much as the star does. */
  lemma {:induction false} EmptyPatternClears<V>(history: seq<Event<V>>, ttl: int, at: int)
    ensures Apply(Replay(history, ttl), ttl, Event(Invalidate(""), at)) == map[]
    ensures Apply(Replay(history, ttl), ttl, Event(Invalidate("*"), at)) == map[]
  {
    forall key | key in Replay(history, ttl) ensures Selects("", key) && Selects("*", key) {
      StoredKeysArePrinted(history, ttl, key);
      var k :| key == KeyString(k);
      EmptyPatternSelectsAll(k);
    }
  }

  /** Invalidating a mood closed by a colon removes that mood's entries and keeps all
      entries of other moods without colons, untouched. */
  lemma MoodInvalidationIsExact<V>(store: Store<V>, ttl: int, at: int, m: string, k: CacheKey)
    requires ColonFree(m) && ColonFree(k.mood) && KeyString(k) in store
    ensures var after := Apply(store, ttl, Event(Invalidate(m + ":"), at));
      && (KeyString(k) in after <==> k.mood != m)
      && (k.mood != m ==> after[KeyString(k)] == store[KeyString(k)])
  {
    ClosedMoodSelects(m, k);
  }

  // ----- The cache -----

  const DEFAULT_TTL := 600_000_000_000 // ten minutes, in nanoseconds

  class MemoryCache<V> {
    var store: Store<V>
    const ttl: int
    var stopped: bool
    ghost var history: seq<Event<V>>

    /** The store is what the calls so far make of an empty one. */
    ghost predicate Valid()
      reads this
    {
      ttl > 0 && Monotone(history) && store == Replay(history, ttl)
    }

    constructor (requested: int)
      ensures Valid() && history == [] && store == map[] && !stopped
      ensures ttl == if requested <= 0 then 600_000_000_000 else requested
    {
      ttl := if requested <= 0 then DEFAULT_TTL else requested;
      store := map[];
      stopped := false;
      history := [];
    }

    method Get(key: CacheKey, now: int) returns (found: Option<V>)
      requires Valid() && NotBefore(history, now)
      ensures found == GetAt(store, KeyString(key), now)
      ensures found.Some? <==> KeyString(key) in store && now <= store[KeyString(key)].expiration
      ensures found.Some? ==> found.value == store[KeyString(key)].value
      ensures found == Recall(history, ttl, KeyString(key), now)
    {
      GetRefinesHistory(history, ttl, KeyString(key), now);
      if KeyString(key) !in store {
        return None;
      }
      var entry := store[KeyString(key)];
      if now > entry.expiration {
        return None;
      }
      return Some(entry.value);
    }

    method Set(key: CacheKey, value: V, now: int)
      requires Valid() && NotBefore(history, now)
      modifies this`store, this`history
      ensures Valid() && history == old(history) + [Event(Op.Set(key, value), now)]
      ensures store == old(store)[KeyString(key) := Entry(value, now + ttl)]
    {
      store := store[KeyString(key) := Entry(value, now + ttl)];
      Record(Op.Set(key, value), now);
    }

    method Delete(key: CacheKey, now: int)
      requires Valid() && NotBefore(history, now)
      modifies this`store, this`history
      ensures Valid() && history == old(history) + [Event(Op.Delete(key), now)]
      ensures store == old(store) - {KeyString(key)}
    {
      store := store - {KeyString(key)};
      Record(Op.Delete(key), now);
    }

    method InvalidateByPattern(pattern: string, now: int)
      requires Valid() && NotBefore(history, now)
      modifies this`store, this`history
      ensures Valid() && history == old(history) + [Event(Invalidate(pattern), now)]
      ensures forall k :: k in store <==> k in old(store) && pattern != "*" && !("recommendation:" + pattern <= k)
      ensures forall k :: k in store ==> store[k] == old(store)[k]
    {
      if pattern == "*" {
        store := map[];
      } else {
        var keysToDelete := KeysWithPrefix(PREFIX + pattern);
        DeleteAll(keysToDelete);
      }
      ghost var left: Store<V> := map k | k in old(store) && !Selects(pattern, k) :: old(store)[k];
      assert store == left;
      Record(Invalidate(pattern), now);
    }

    /** Visits the stored keys in any order. */
    method KeysWithPrefix(prefix: string) returns (keys: seq<string>)
      ensures forall k :: k in keys <==> k in store && MatchesPattern(k, prefix)
    {
      keys := [];
      var todo := store.Keys;
      while todo != {}
        invariant todo <= store.Keys
        invariant forall k :: k in keys <==> k in store && k !in todo && MatchesPattern(k, prefix)
        decreases |todo|
      {
        var key :| key in todo;
        todo := todo - {key};
        if MatchesPattern(key, prefix) {
          keys := keys + [key];
        }
      }
    }

    /** Removes all entries that have expired; run by a background ticker. */
    method RemoveExpired(now: int)
      requires Valid() && NotBefore(history, now)
      modifies this`store, this`history
      ensures Valid() && history == old(history) + [Event(Cleanup, now)]
      ensures forall k :: k in store <==> k in old(store) && now <= old(store)[k].expiration
      ensures forall k :: k in store ==> store[k] == old(store)[k]
    {
      var expiredKeys: seq<string> := [];
      var todo := store.Keys;
      while todo != {}
        invariant todo <= store.Keys
        invariant forall k :: k in expiredKeys <==> k in store && k !in todo && now > store[k].expiration
        decreases |todo|
      {
        var key :| key in todo;
        todo := todo - {key};
        if now > store[key].expiration {
          expiredKeys := expiredKeys + [key];
        }
      }
      DeleteAll(expiredKeys);
      Record(Cleanup, now);
    }

    method DeleteAll(keys: seq<string>)
      modifies this`store
      ensures forall k :: k in store <==> k in old(store) && k !in keys
      ensures forall k :: k in store ==> store[k] == old(store)[k]
    {
      for i := 0 to |keys|
        invariant forall k :: k in store <==> k in old(store) && k !in keys[..i]
        invariant forall k :: k in store ==> store[k] == old(store)[k]
      {
        store := store - {keys[i]};
      }
      assert keys[..|keys|] == keys;
    }

    method ClearAll(now: int)
      requires Valid() && NotBefore(history, now)
      modifies this`store, this`history
      ensures Valid() && history == old(history) + [Event(Clear, now)]
      ensures store == map[]
    {
      store := map[];
      Record(Clear, now);
    }

    /** Closing stops the background cleanup, once; the entries stay readable. */
    method Close() returns (closedStopChannel: bool)
      requires Valid()
      modifies this`stopped
      ensures Valid() && stopped
      ensures closedStopChannel <==> !old(stopped)
    {
      closedStopChannel := !stopped;
      stopped := true;
    }

    ghost method Record(op: Op<V>, now: int)
      requires Monotone(history) && NotBefore(history, now)
      requires store == Apply(Replay(history, ttl), ttl, Event(op, now))
      modifies this`history
      ensures history == old(history) + [Event(op, now)]
      ensures Monotone(history) && store == Replay(history, ttl)
    {
      ghost var was := history;
      history := history + [Event(op, now)];
      assert history[..|history| - 1] == was;
    }
  }
}
