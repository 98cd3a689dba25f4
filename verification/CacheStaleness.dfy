/**
 * Cache-aside under concurrency: readers query the database and store the answer later, writers change
 * the database and then try to delete keys, and any store or deletion may silently fail.
 */
module CacheStaleness {
  import opened Common
  import CacheKeys

  type Key = CacheKeys.CacheKey

  /** `storedAt` sets the expiry; `queriedAt` is bookkeeping that no step looks at. */
  datatype Cached<V> = Cached(value: V, storedAt: int, queriedAt: int)

  /** An answer a reader holds between its query and its `set`. */
  datatype Pending<V> = Pending(key: Key, value: V, queriedAt: int)

  /** The database contents from a moment on. */
  datatype Era<D> = Era(since: int, db: D)

  datatype State<D, V> = State(
    now: int,
    eras: seq<Era<D>>,
    cache: map<Key, Cached<V>>,
    readers: map<nat, Pending<V>>)

  /** How a query is answered; `None` means that there is no row, and nothing is cached. */
  datatype Setup<!D, V> = Setup(answer: (Key, D) -> Option<V>)

  /**
   * Time passes; a writer commits; a deletion reaches some keys (none if it failed, some if a pattern
   * deletion broke off); a reader queries; a reader's `set` succeeds or fails.
   */
  datatype Action<D> =
    | Wait(duration: nat)
    | Write(db: D)
    | Delete(keys: set<Key>)
    | Query(reader: nat, key: Key)
    | Set(reader: nat, fails: bool)

  function Database<D, V>(s: State<D, V>): D
    requires s.eras != []
  {
    s.eras[|s.eras| - 1].db
  }

  function Step<D, V>(setup: Setup<D, V>, s: State<D, V>, action: Action<D>): (s': State<D, V>)
    requires s.eras != []
    ensures s'.eras != []
  {
    match action
    case Wait(duration) => s.(now := s.now + duration)
    case Write(db) => s.(eras := s.eras + [Era(s.now, db)])
    case Delete(keys) => s.(cache := s.cache - keys)
    case Query(reader, key) =>
      var answer := setup.answer(key, Database(s));
      if answer.None? then s.(readers := s.readers - {reader})
      else s.(readers := s.readers[reader := Pending(key, answer.value, s.now)])
    case Set(reader, fails) =>
      if reader !in s.readers then s
      else
        var p := s.readers[reader];
        var rest := s.(readers := s.readers - {reader});
        if fails then rest else rest.(cache := s.cache[p.key := Cached(p.value, s.now, p.queriedAt)])
  }

  function Run<D, V>(setup: Setup<D, V>, s: State<D, V>, actions: seq<Action<D>>): (s': State<D, V>)
    requires s.eras != []
    ensures s'.eras != []
  {
    if actions == [] then s
    else Step(setup, Run(setup, s, actions[..|actions| - 1]), actions[|actions| - 1])
  }

  /** What a `get` returns now: an entry lives for its time-to-live and no longer. */
  function Lookup<D, V>(s: State<D, V>, key: Key): Option<V> {
    if key in s.cache && s.now < s.cache[key].storedAt + CacheKeys.TtlOf(key) then Some(s.cache[key].value) else None
  }

  predicate Initial<D, V>(s: State<D, V>) {
    |s.eras| == 1 && s.eras[0].since <= s.now && s.cache == map[] && s.readers == map[]
  }

  // ---------------------------------------------------------------------------------------------
  // Every cached value was the database's answer at the moment of its query
  // ---------------------------------------------------------------------------------------------

  /** During the i-th era, `t` included at both ends. */
  predicate DuringEra<D>(eras: seq<Era<D>>, i: nat, t: int, now: int)
    requires i < |eras|
  {
    eras[i].since <= t <= if i + 1 < |eras| then eras[i + 1].since else now
  }

  /** At moment `t` the database answered the query of this key with this value. */
  ghost predicate WasAnswer<D, V>(setup: Setup<D, V>, eras: seq<Era<D>>, now: int, key: Key, value: V, t: int) {
    exists i :: 0 <= i < |eras| && DuringEra(eras, i, t, now) && setup.answer(key, eras[i].db) == Some(value)
  }

  ghost predicate PendingOk<D, V>(setup: Setup<D, V>, eras: seq<Era<D>>, now: int, p: Pending<V>) {
    p.queriedAt <= now && WasAnswer(setup, eras, now, p.key, p.value, p.queriedAt)
  }

  ghost predicate CachedOk<D, V>(setup: Setup<D, V>, eras: seq<Era<D>>, now: int, key: Key, c: Cached<V>) {
    c.queriedAt <= c.storedAt <= now && WasAnswer(setup, eras, now, key, c.value, c.queriedAt)
  }

  ghost predicate Inv<D, V>(setup: Setup<D, V>, s: State<D, V>) {
    && s.eras != []
    && s.eras[|s.eras| - 1].since <= s.now
    && (forall r :: r in s.readers ==> PendingOk(setup, s.eras, s.now, s.readers[r]))
    && (forall key :: key in s.cache ==> CachedOk(setup, s.eras, s.now, key, s.cache[key]))
  }

  /** Time passes, and perhaps an era begins now. */
  ghost predicate Later<D>(eras: seq<Era<D>>, now: int, eras': seq<Era<D>>, now': int) {
    || (eras' == eras && now <= now')
    || (|eras'| == |eras| + 1 && eras'[..|eras|] == eras && eras'[|eras|].since == now == now')
  }

  lemma AnswersAreHistory<D, V>(
    setup: Setup<D, V>, eras: seq<Era<D>>, now: int, eras': seq<Era<D>>, now': int, key: Key, value: V, t: int)
    requires WasAnswer(setup, eras, now, key, value, t) && Later(eras, now, eras', now')
    ensures WasAnswer(setup, eras', now', key, value, t)
  {
    var i :| 0 <= i < |eras| && DuringEra(eras, i, t, now) && setup.answer(key, eras[i].db) == Some(value);
    assert eras'[i] == eras[i];
    assert i + 1 < |eras| ==> eras'[i + 1] == eras[i + 1];
    assert DuringEra(eras', i, t, now');
  }

  lemma HistoryKeepsInv<D, V>(setup: Setup<D, V>, s: State<D, V>, s': State<D, V>)
    requires Inv(setup, s) && s'.cache == s.cache && s'.readers == s.readers
    requires Later(s.eras, s.now, s'.eras, s'.now)
    ensures Inv(setup, s')
  {
    forall r | r in s.readers ensures PendingOk(setup, s'.eras, s'.now, s.readers[r]) {
      var p := s.readers[r];
      AnswersAreHistory(setup, s.eras, s.now, s'.eras, s'.now, p.key, p.value, p.queriedAt);
    }
    forall key | key in s.cache ensures CachedOk(setup, s'.eras, s'.now, key, s.cache[key]) {
      var c := s.cache[key];
      AnswersAreHistory(setup, s.eras, s.now, s'.eras, s'.now, key, c.value, c.queriedAt);
    }
  }

  lemma QueryGivesTheAnswer<D, V>(setup: Setup<D, V>, s: State<D, V>, key: Key)
    requires Inv(setup, s) && setup.answer(key, Database(s)).Some?
    ensures PendingOk(setup, s.eras, s.now, Pending(key, setup.answer(key, Database(s)).value, s.now))
  {
    assert DuringEra(s.eras, |s.eras| - 1, s.now, s.now);
  }

  lemma QueryKeepsInv<D, V>(setup: Setup<D, V>, s: State<D, V>, reader: nat, key: Key)
    requires Inv(setup, s)
    ensures Inv(setup, Step(setup, s, Query(reader, key)))
  {
    if setup.answer(key, Database(s)).Some? {
      QueryGivesTheAnswer(setup, s, key);
    }
  }

  lemma StoringKeepsInv<D, V>(setup: Setup<D, V>, s: State<D, V>, key: Key, c: Cached<V>)
    requires Inv(setup, s) && CachedOk(setup, s.eras, s.now, key, c)
    ensures Inv(setup, s.(cache := s.cache[key := c]))
  {
  }

  lemma SetKeepsInv<D, V>(setup: Setup<D, V>, s: State<D, V>, reader: nat, fails: bool)
    requires Inv(setup, s)
    ensures Inv(setup, Step(setup, s, Set(reader, fails)))
  {
    if reader in s.readers {
      var p := s.readers[reader];
      assert PendingOk(setup, s.eras, s.now, p);
      var rest := s.(readers := s.readers - {reader});
      assert Inv(setup, rest);
      if !fails {
        StoringKeepsInv(setup, rest, p.key, Cached(p.value, s.now, p.queriedAt));
      }
    }
  }

  lemma StepKeepsInv<D, V>(setup: Setup<D, V>, s: State<D, V>, action: Action<D>)
    requires Inv(setup, s)
    ensures Inv(setup, Step(setup, s, action))
  {
    match action
    case Wait(_) => HistoryKeepsInv(setup, s, Step(setup, s, action));
    case Write(_) => HistoryKeepsInv(setup, s, Step(setup, s, action));
    case Delete(_) =>
    case Query(reader, key) => QueryKeepsInv(setup, s, reader, key);
    case Set(reader, fails) => SetKeepsInv(setup, s, reader, fails);
  }

  lemma {:induction false} RunKeepsInv<D, V>(setup: Setup<D, V>, s: State<D, V>, actions: seq<Action<D>>)
    requires Initial(s)
    ensures Inv(setup, Run(setup, s, actions))
  {
    if actions != [] {
      RunKeepsInv(setup, s, actions[..|actions| - 1]);
      StepKeepsInv(setup, Run(setup, s, actions[..|actions| - 1]), actions[|actions| - 1]);
    }
  }

  /** The value was the answer at some moment less than `age` seconds ago. */
  ghost predicate AnswerWithin<D, V>(setup: Setup<D, V>, s: State<D, V>, key: Key, value: V, age: int) {
    exists t :: s.now - age < t <= s.now && WasAnswer(setup, s.eras, s.now, key, value, t)
  }

  /**
   * Bounded staleness: under any interleaving and any failures, a value that the cache returns was the
   * database's answer at some moment later than now minus the key's time-to-live minus the time that
   * the reader who stored it let pass between its query and its `set`: 1800 seconds for categories,
   * their lists and trees, 300 for products, their lists and users.
   */
  lemma BoundedStaleness<D, V>(setup: Setup<D, V>, start: State<D, V>, actions: seq<Action<D>>, key: Key)
    requires Initial(start)
    ensures
      var s := Run(setup, start, actions);
      Lookup(s, key).Some? ==>
        var gap := s.cache[key].storedAt - s.cache[key].queriedAt;
        && gap >= 0
        && (key.CategoryKey? || key.CategoryListKey? || key.CategoryTreeKey? ==>
              AnswerWithin(setup, s, key, Lookup(s, key).value, 1800 + gap))
        && (key.ProductKey? || key.ProductListKey? || key.UserKey? ==>
              AnswerWithin(setup, s, key, Lookup(s, key).value, 300 + gap))
  {
    RunKeepsInv(setup, start, actions);
    var s := Run(setup, start, actions);
    if Lookup(s, key).Some? {
      var t := s.cache[key].queriedAt;
      assert WasAnswer(setup, s.eras, s.now, key, s.cache[key].value, t);
    }
  }

  /** What is stored is returned for exactly 1800 or 300 seconds, if nothing else happens to the key. */
  lemma LifetimeIsExact<D, V>(setup: Setup<D, V>, s: State<D, V>, reader: nat, later: nat)
    requires s.eras != [] && reader in s.readers
    ensures
      var p := s.readers[reader];
      var s' := Step(setup, Step(setup, s, Set(reader, false)), Wait(later));
      var lifetime := if p.key.CategoryKey? || p.key.CategoryListKey? || p.key.CategoryTreeKey? then 1800 else 300;
      Lookup(s', p.key) == if later < lifetime then Some(p.value) else None
  {
  }

  // ---------------------------------------------------------------------------------------------
  // The bound cannot be replaced by exact coherence
  // ---------------------------------------------------------------------------------------------

  /**
   * A reader that queries before a write and stores after the writer's successful deletion puts the
   * old answer back, and it stays until it expires: every instant of the bound is used.
   */
  lemma InvalidationCanBeUndone<D, V>(setup: Setup<D, V>, start: State<D, V>, key: Key, db: D, gap: nat, later: nat)
    requires Initial(start)
    requires setup.answer(key, Database(start)).Some? && setup.answer(key, db) != setup.answer(key, Database(start))
    requires later < if key.CategoryKey? || key.CategoryListKey? || key.CategoryTreeKey? then 1800 else 300
    ensures
      var s := Run(setup, start, [Query(0, key), Write(db), Delete({key}), Wait(gap), Set(0, false), Wait(later)]);
      && Lookup(s, key) == setup.answer(key, Database(start))
      && Lookup(s, key) != setup.answer(key, Database(s))
      && s.now == start.now + gap + later
  {
    var s1 := Step(setup, start, Query(0, key));
    var s2 := Step(setup, s1, Write(db));
    var s3 := Step(setup, s2, Delete({key}));
    var s4 := Step(setup, s3, Wait(gap));
    var s5 := Step(setup, s4, Set(0, false));
    var s6 := Step(setup, s5, Wait(later));
    var actions := [Query(0, key), Write(db), Delete({key}), Wait(gap), Set(0, false), Wait(later)];
    assert actions[..5] == [Query(0, key), Write(db), Delete({key}), Wait(gap), Set(0, false)];
    assert actions[..5][..4] == [Query(0, key), Write(db), Delete({key}), Wait(gap)];
    assert actions[..5][..4][..3] == [Query(0, key), Write(db), Delete({key})];
    assert actions[..5][..4][..3][..2] == [Query(0, key), Write(db)];
    assert actions[..5][..4][..3][..2][..1] == [Query(0, key)];
    assert Run(setup, start, actions[..5][..4][..3][..2][..1]) == s1 by {
      var first: seq<Action<D>> := [Query(0, key)];
      assert first[..0] == [];
    }
    assert Run(setup, start, actions[..5][..4][..3][..2]) == s2;
    assert Run(setup, start, actions[..5][..4][..3]) == s3;
    assert Run(setup, start, actions[..5][..4]) == s4;
    assert Run(setup, start, actions[..5]) == s5;
    assert Run(setup, start, actions) == s6;
  }

  // ---------------------------------------------------------------------------------------------
  // When the cache is exact
  // ---------------------------------------------------------------------------------------------

  /** A stored value is what the query of its key returns now. */
  ghost predicate Exact<D, V>(setup: Setup<D, V>, s: State<D, V>, key: Key)
    requires s.eras != []
  {
    key in s.cache ==> setup.answer(key, Database(s)) == Some(s.cache[key].value)
  }

  ghost predicate Coherent<D, V>(setup: Setup<D, V>, s: State<D, V>)
    requires s.eras != []
  {
    forall key :: key in s.cache ==> Exact(setup, s, key)
  }

  ghost predicate ChangesAnswer<D, V>(setup: Setup<D, V>, s: State<D, V>, db: D, key: Key)
    requires s.eras != []
  {
    setup.answer(key, db) != setup.answer(key, Database(s))
  }

  /** What a step must not do: write under a stored value, or store an outdated one. */
  ghost predicate StaysExact<D, V>(setup: Setup<D, V>, s: State<D, V>, action: Action<D>)
    requires s.eras != []
  {
    match action
    case Write(db) => forall key :: key in s.cache ==> !ChangesAnswer(setup, s, db, key)
    case Set(reader, fails) =>
      !fails && reader in s.readers ==>
        setup.answer(s.readers[reader].key, Database(s)) == Some(s.readers[reader].value)
    case _ => true
  }

  lemma WriteKeepsCoherenceExactly<D, V>(setup: Setup<D, V>, s: State<D, V>, db: D)
    requires s.eras != [] && Coherent(setup, s)
    ensures Coherent(setup, Step(setup, s, Write(db))) <==> StaysExact(setup, s, Write(db))
  {
    var s' := Step(setup, s, Write(db));
    forall key | key in s.cache ensures Exact(setup, s', key) <==> !ChangesAnswer(setup, s, db, key) {
      assert Exact(setup, s, key);
    }
  }

  lemma SameAnswersStayCoherent<D, V>(setup: Setup<D, V>, s: State<D, V>, s': State<D, V>)
    requires s.eras != [] && Coherent(setup, s) && s'.eras == s.eras
    requires forall key :: key in s'.cache ==> key in s.cache && s'.cache[key] == s.cache[key]
    ensures Coherent(setup, s')
  {
    forall key | key in s'.cache ensures Exact(setup, s', key) {
      assert Exact(setup, s, key);
    }
  }

  lemma SetKeepsCoherenceExactly<D, V>(setup: Setup<D, V>, s: State<D, V>, reader: nat, fails: bool)
    requires s.eras != [] && Coherent(setup, s)
    ensures Coherent(setup, Step(setup, s, Set(reader, fails))) <==> StaysExact(setup, s, Set(reader, fails))
  {
    var s' := Step(setup, s, Set(reader, fails));
    if !fails && reader in s.readers {
      var p := s.readers[reader];
      assert Exact(setup, s', p.key) <==> StaysExact(setup, s, Set(reader, fails));
      forall key | key in s'.cache && key != p.key ensures Exact(setup, s', key) {
        assert Exact(setup, s, key);
      }
    } else {
      SameAnswersStayCoherent(setup, s, s');
    }
  }

  /** From a coherent state, a step leaves a coherent state exactly when it does neither. */
  lemma StepKeepsCoherenceExactly<D, V>(setup: Setup<D, V>, s: State<D, V>, action: Action<D>)
    requires s.eras != [] && Coherent(setup, s)
    ensures Coherent(setup, Step(setup, s, action)) <==> StaysExact(setup, s, action)
  {
    match action
    case Write(db) => WriteKeepsCoherenceExactly(setup, s, db);
    case Set(reader, fails) => SetKeepsCoherenceExactly(setup, s, reader, fails);
    case Wait(_) => SameAnswersStayCoherent(setup, s, Step(setup, s, action));
    case Delete(_) => SameAnswersStayCoherent(setup, s, Step(setup, s, action));
    case Query(_, _) => SameAnswersStayCoherent(setup, s, Step(setup, s, action));
  }

  /** A write changed the answer of the key, and no deletion has reached the key since. */
  ghost predicate Outdated<D, V>(setup: Setup<D, V>, start: State<D, V>, actions: seq<Action<D>>, key: Key)
    requires start.eras != []
  {
    if actions == [] then false
    else
      var before := actions[..|actions| - 1];
      match actions[|actions| - 1]
      case Write(db) =>
        Outdated(setup, start, before, key) || ChangesAnswer(setup, Run(setup, start, before), db, key)
      case Delete(keys) => Outdated(setup, start, before, key) && key !in keys
      case _ => Outdated(setup, start, before, key)
  }

  /** A write changed the answer that the reader holds, since it queried. */
  ghost predicate Overtaken<D, V>(setup: Setup<D, V>, start: State<D, V>, actions: seq<Action<D>>, reader: nat)
    requires start.eras != []
  {
    if actions == [] then false
    else
      var before := actions[..|actions| - 1];
      var s := Run(setup, start, before);
      match actions[|actions| - 1]
      case Write(db) =>
        || Overtaken(setup, start, before, reader)
        || (reader in s.readers && ChangesAnswer(setup, s, db, s.readers[reader].key))
      case Query(r, _) => r != reader && Overtaken(setup, start, before, reader)
      case _ => Overtaken(setup, start, before, reader)
  }

  ghost predicate SetsInTime<D, V>(setup: Setup<D, V>, start: State<D, V>, before: seq<Action<D>>, action: Action<D>)
    requires start.eras != []
  {
    action.Set? && !action.fails && action.reader in Run(setup, start, before).readers ==>
      !Overtaken(setup, start, before, action.reader)
  }

  /** No reader stores an answer that a write has overtaken since its query. */
  ghost predicate NoLateSets<D, V>(setup: Setup<D, V>, start: State<D, V>, actions: seq<Action<D>>)
    requires start.eras != []
  {
    forall i :: 0 <= i < |actions| ==> SetsInTime(setup, start, actions[..i], actions[i])
  }

  ghost predicate ExactUnlessOutdated<D, V>(setup: Setup<D, V>, start: State<D, V>, actions: seq<Action<D>>)
    requires start.eras != []
  {
    var s := Run(setup, start, actions);
    forall key :: key in s.cache && !Outdated(setup, start, actions, key) ==> Exact(setup, s, key)
  }

  ghost predicate Holds<D, V>(setup: Setup<D, V>, s: State<D, V>, p: Pending<V>)
    requires s.eras != []
  {
    setup.answer(p.key, Database(s)) == Some(p.value)
  }

  ghost predicate PendingUnlessOvertaken<D, V>(setup: Setup<D, V>, start: State<D, V>, actions: seq<Action<D>>)
    requires start.eras != []
  {
    var s := Run(setup, start, actions);
    forall r :: r in s.readers && !Overtaken(setup, start, actions, r) ==> Holds(setup, s, s.readers[r])
  }

  lemma ReadersAreCurrent<D, V>(setup: Setup<D, V>, start: State<D, V>, before: seq<Action<D>>, action: Action<D>)
    requires start.eras != [] && PendingUnlessOvertaken(setup, start, before)
    ensures PendingUnlessOvertaken(setup, start, before + [action])
  {
    var s := Run(setup, start, before);
    var actions := before + [action];
    assert actions[..|actions| - 1] == before;
    var s' := Run(setup, start, actions);
    assert s' == Step(setup, s, action);
    forall r | r in s'.readers && !Overtaken(setup, start, actions, r) ensures Holds(setup, s', s'.readers[r]) {
      if !(action.Query? && action.reader == r) {
        assert r in s.readers && s'.readers[r] == s.readers[r] && !Overtaken(setup, start, before, r);
        assert Holds(setup, s, s.readers[r]);
      }
    }
  }

  lemma StoredIsExact<D, V>(setup: Setup<D, V>, start: State<D, V>, before: seq<Action<D>>, action: Action<D>)
    requires start.eras != [] && ExactUnlessOutdated(setup, start, before) && PendingUnlessOvertaken(setup, start, before)
    requires SetsInTime(setup, start, before, action)
    ensures ExactUnlessOutdated(setup, start, before + [action])
  {
    var s := Run(setup, start, before);
    var actions := before + [action];
    assert actions[..|actions| - 1] == before;
    var s' := Run(setup, start, actions);
    assert s' == Step(setup, s, action);
    forall key | key in s'.cache && !Outdated(setup, start, actions, key) ensures Exact(setup, s', key) {
      if action.Set? && !action.fails && action.reader in s.readers && s.readers[action.reader].key == key {
        assert Holds(setup, s, s.readers[action.reader]);
      } else {
        assert key in s.cache && s'.cache[key] == s.cache[key] && !Outdated(setup, start, before, key);
        assert Exact(setup, s, key);
      }
    }
  }

  lemma {:induction false} RunIsExact<D, V>(setup: Setup<D, V>, start: State<D, V>, actions: seq<Action<D>>)
    requires Initial(start) && NoLateSets(setup, start, actions)
    ensures ExactUnlessOutdated(setup, start, actions) && PendingUnlessOvertaken(setup, start, actions)
  {
    if actions != [] {
      var n := |actions| - 1;
      var before := actions[..n];
      forall i | 0 <= i < n ensures SetsInTime(setup, start, before[..i], before[i]) {
        assert before[..i] == actions[..i];
      }
      RunIsExact(setup, start, before);
      assert actions == before + [actions[n]];
      assert SetsInTime(setup, start, actions[..n], actions[n]);
      ReadersAreCurrent(setup, start, before, actions[n]);
      StoredIsExact(setup, start, before, actions[n]);
    }
  }

  /**
   * Exact coherence under concurrency: if no reader stores an answer that a write has overtaken since
   * its query, every value the cache returns, for a key that was deleted after the last write that
   * changed its answer, is what the database would answer now.
   */
  lemma CoherentBetweenWrites<D, V>(setup: Setup<D, V>, start: State<D, V>, actions: seq<Action<D>>)
    requires Initial(start) && NoLateSets(setup, start, actions)
    ensures
      var s := Run(setup, start, actions);
      forall key :: Lookup(s, key).Some? && !Outdated(setup, start, actions, key) ==>
        Lookup(s, key) == setup.answer(key, Database(s))
    ensures (forall key :: !Outdated(setup, start, actions, key)) ==> Coherent(setup, Run(setup, start, actions))
  {
    RunIsExact(setup, start, actions);
    var s := Run(setup, start, actions);
    forall key | Lookup(s, key).Some? && !Outdated(setup, start, actions, key)
      ensures Lookup(s, key) == setup.answer(key, Database(s))
    {
      assert Exact(setup, s, key);
    }
  }
}
