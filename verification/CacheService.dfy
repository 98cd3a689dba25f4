/** The cache service over a key store with expiry, in which any operation may fail and is then swallowed. */
module CacheService {
  import opened Common
  import CacheKeys

  /** A stored text; `value` is `None` when it is not valid JSON. */
  datatype Entry<V> = Entry(value: Option<V>, expiresAt: int)

  type Store<V> = map<string, Entry<V>>

  /** What other clients of the key store do between two calls of a scan. */
  datatype Change<V> = Change(written: Store<V>, removed: set<string>)

  /** One SCAN call: what others did before it, the keys it returned, and the cursor it returned. */
  datatype Reply<V> = Reply(others: Change<V>, keys: seq<string>, cursor: string)

  function Disturb<V>(store: Store<V>, change: Change<V>): Store<V> {
    (store - change.removed) + change.written
  }

  /** The store if only the other clients had acted during the first `n` calls. */
  function OthersOnly<V>(store: Store<V>, script: seq<Reply<V>>, n: nat): Store<V>
    requires n <= |script|
  {
    if n == 0 then store else Disturb(OthersOnly(store, script, n - 1), script[n - 1].others)
  }

  predicate Returns<V>(reply: Reply<V>, key: string) {
    key in reply.keys
  }

  predicate TouchedByOthers<V>(reply: Reply<V>, key: string) {
    key in reply.others.written || key in reply.others.removed
  }

  /** The traversal ends when the cursor comes back to "0", and not before. */
  predicate CursorProtocol<V>(script: seq<Reply<V>>) {
    script != [] && forall i :: 0 <= i < |script| ==> (script[i].cursor == "0" <==> i == |script| - 1)
  }

  /**
   * The guarantee of SCAN: it returns only matching keys, and every matching key that was there at the
   * start and that nobody else touched is returned at least once.
   */
  ghost predicate FullTraversal<V>(store: Store<V>, pattern: string, script: seq<Reply<V>>) {
    && CursorProtocol(script)
    && (forall i, key :: 0 <= i < |script| && Returns(script[i], key) ==> CacheKeys.GlobMatches(pattern, key))
    && (forall key :: key in store && CacheKeys.GlobMatches(pattern, key) ==>
          exists i :: 0 <= i < |script| && (Returns(script[i], key) || TouchedByOthers(script[i], key)))
  }

  ghost predicate WrittenByOthers<V>(script: seq<Reply<V>>, key: string) {
    exists i :: 0 <= i < |script| && key in script[i].others.written
  }

  /** The keys that do not match are as the other clients left them. */
  ghost predicate SparesOthers<V>(was: Store<V>, script: seq<Reply<V>>, n: nat, pattern: string, store: Store<V>)
    requires n <= |script|
  {
    forall key :: !CacheKeys.GlobMatches(pattern, key) ==>
      && (key in store <==> key in OthersOnly(was, script, n))
      && (key in store ==> store[key] == OthersOnly(was, script, n)[key])
  }

  /** One round of the loop on the store. */
  function AfterCall<V>(store: Store<V>, reply: Reply<V>): Store<V> {
    Disturb(store, reply.others) - (set key | key in reply.keys)
  }

  lemma StillSpared<V>(was: Store<V>, script: seq<Reply<V>>, call: nat, pattern: string, store: Store<V>)
    requires call < |script| && SparesOthers(was, script, call, pattern, store)
    requires forall key :: Returns(script[call], key) ==> CacheKeys.GlobMatches(pattern, key)
    ensures SparesOthers(was, script, call + 1, pattern, AfterCall(store, script[call]))
    ensures script[call].keys == [] ==> Disturb(store, script[call].others) == AfterCall(store, script[call])
  {
  }

  /** Why a key may still be there after `n` calls: others wrote it, or it is old and was not returned since. */
  ghost predicate Remains<V>(was: Store<V>, script: seq<Reply<V>>, n: nat, key: string)
    requires n <= |script|
  {
    || (exists i :: 0 <= i < n && key in script[i].others.written)
    || (key in was && forall i :: 0 <= i < n ==> !Returns(script[i], key) && key !in script[i].others.removed)
  }

  ghost predicate Explained<V>(was: Store<V>, script: seq<Reply<V>>, n: nat, store: Store<V>)
    requires n <= |script|
  {
    forall key :: key in store ==> Remains(was, script, n, key)
  }

  lemma StillExplained<V>(was: Store<V>, script: seq<Reply<V>>, call: nat, store: Store<V>)
    requires call < |script| && Explained(was, script, call, store)
    ensures Explained(was, script, call + 1, AfterCall(store, script[call]))
  {
    var after := AfterCall(store, script[call]);
    forall key | key in after ensures Remains(was, script, call + 1, key) {
      assert !Returns(script[call], key);
      if key !in script[call].others.written {
        assert Remains(was, script, call, key);
      }
    }
  }

  lemma NothingUntouchedRemains<V>(was: Store<V>, pattern: string, script: seq<Reply<V>>, after: Store<V>)
    requires FullTraversal(was, pattern, script) && Explained(was, script, |script|, after)
    ensures forall key :: key in after && CacheKeys.GlobMatches(pattern, key) ==> WrittenByOthers(script, key)
  {
    forall key | key in after && CacheKeys.GlobMatches(pattern, key) ensures WrittenByOthers(script, key) {
      assert Remains(was, script, |script|, key);
    }
  }

  class Cache<V> {
    var store: Store<V>

    constructor ()
      ensures store == map[]
    {
      store := map[];
    }

    /** A miss, an expired entry, a failed call and a corrupt text all look alike. */
    method Get(key: string, now: int, fails: bool) returns (value: Option<V>)
      ensures value.Some? <==>
        !fails && key in store && now < store[key].expiresAt && store[key].value.Some?
      ensures value.Some? ==> value == store[key].value
    {
      value := None;
      if !fails && key in store && now < store[key].expiresAt {
        value := store[key].value;
      }
    }

    method Set(key: string, value: V, now: int, ttl: nat, fails: bool)
      modifies this
      ensures store == if fails then old(store) else old(store)[key := Entry(Some(value), now + ttl)]
    {
      if !fails {
        store := store[key := Entry(Some(value), now + ttl)];
      }
    }

    method Del(key: string, fails: bool)
      modifies this
      ensures store == if fails then old(store) else old(store) - {key}
    {
      if !fails {
        store := store - {key};
      }
    }

    /**
     * Deletes what a scan returns, call by call; `failsAt` is the call at which the key store throws.
     * It never touches a key that does not match.  Without a failure, the only matching keys left are
     * those that somebody else wrote while the scan was running.
     */
    method DelByPattern(pattern: string, script: seq<Reply<V>>, failsAt: nat) returns (ghost done: nat)
      requires FullTraversal(store, pattern, script)
      modifies this
      ensures done <= |script| && (failsAt >= |script| ==> done == |script|)
      ensures SparesOthers(old(store), script, done, pattern, store)
      ensures failsAt >= |script| ==>
        forall key :: key in store && CacheKeys.GlobMatches(pattern, key) ==> WrittenByOthers(script, key)
    {
      var cursor := "0";
      var call := 0;
      done := 0;
      ghost var was := store;
      while true
        invariant 0 <= call < |script| && done == call
        invariant failsAt >= call
        invariant SparesOthers(was, script, call, pattern, store)
        invariant Explained(was, script, call, store)
        decreases |script| - call
      {
        if call == failsAt {
          return;
        }
        var reply := script[call];
        StillSpared(was, script, call, pattern, store);
        StillExplained(was, script, call, store);
        store := Disturb(store, reply.others);
        cursor := reply.cursor;
        if |reply.keys| > 0 {
          store := store - (set key | key in reply.keys);
        }
        call := call + 1;
        done := call;
        if cursor == "0" {
          break;
        }
      }
      NothingUntouchedRemains(was, pattern, script, store);
    }
  }
}
