/** Shards are independent: each key lives in the shard of its hash's remainder, and what happens to keys with
    other remainders never matters to it. */
module LimiterShards {
  import opened RateWindows
  import opened TimeWindowLimiters
  import opened LimiterRuns

  /** The limiter has `n` shards under `hasher`, and every key is in the shard of its remainder. */
  ghost predicate AtHome<K>(l: Limiter<K>, n: nat, hasher: K -> nat) {
    && |l.shards| == n > 0 && l.hasher == hasher
    && forall i :: 0 <= i < n ==> forall k <- l.shards[i] :: hasher(k) % n == i
  }

  lemma CallKeepsHome<K>(l: Limiter<K>, n: nat, hasher: K -> nat, c: Call<K>, window: Duration)
    requires AtHome(l, n, hasher)
    ensures AtHome(AllowIn(l, c.key, c.limit, c.now, window).0, n, hasher)
  {
    var home := hasher(c.key) % n;
    assert l.ShardOf(c.key) == home;
    CallAddsOnlyItsKey(l.shards[home], l.maxKeys, c, window);
    hide AllowInShard;
  }

  lemma CallAddsOnlyItsKey<K>(m: Shard<K>, maxKeys: nat, c: Call<K>, window: Duration)
    ensures forall k :: k in AllowInShard(m, maxKeys, c.key, c.limit, c.now, window).0 ==> k in m || k == c.key
  {
    hide RecordWindow, PruneWindow;
  }

  /** Main result: what a call makes of its shard. Only a new key that meets a full shard causes a sweep, which
      removes exactly the keys without an active timestamp, even if the call is then refused; otherwise the
      other keys are left alone. The key itself is pruned, and charged if and only if the call is admitted. */
  lemma CallOnShard<K>(m: Shard<K>, maxKeys: nat, c: Call<K>, window: Duration)
    ensures var (after, ok) := AllowInShard(m, maxKeys, c.key, c.limit, c.now, window);
            var full := c.key !in m && |m| >= maxKeys;
            && (forall k :: k != c.key ==>
                  (k in after <==> k in m && (full ==> ActiveSuffix(m[k].log, c.now, window) != [])))
            && (forall k :: k != c.key && k in after && k in m ==>
                  after[k].log == (if full then ActiveSuffix(m[k].log, c.now, window) else m[k].log) && after[k].capacity == m[k].capacity)
            && var kept := if c.key in m then ActiveSuffix(m[c.key].log, c.now, window) else [];
               && (ok ==> |kept| < c.limit && c.key in after && after[c.key].log == kept + [c.now])
               && (!ok && c.key in after ==> |kept| >= c.limit && after[c.key].log == kept)
               && (c.key !in after ==> !ok && c.key !in m && |Sweep(m, c.now, window)| >= maxKeys)
  {
    hide Grow;
  }

  lemma {:induction false} RunKeepsHome<K>(l: Limiter<K>, n: nat, hasher: K -> nat, calls: seq<Call<K>>, window: Duration)
    requires AtHome(l, n, hasher)
    ensures AtHome(Exec(l, calls, window), n, hasher)
    decreases |calls|
  {
    if calls != [] {
      CallKeepsHome(l, n, hasher, calls[0], window);
      RunKeepsHome(AllowIn(l, calls[0].key, calls[0].limit, calls[0].now, window).0, n, hasher, calls[1..], window);
      hide AtHome, AllowIn;
    }
  }

  /** Main result: after every run each key is in the shard of its hash modulo the number of shards. */
  lemma KeysStayHome<K>(numShards: nat, maxKeys: nat, hasher: K -> nat, calls: seq<Call<K>>, window: Duration, i: nat, key: K)
    requires numShards > 0
    ensures var end := Exec(NewLimiter(numShards, maxKeys, hasher), calls, window);
            |end.shards| == numShards && (i < numShards && key in end.shards[i] ==> hasher(key) % numShards == i)
  {
    RunKeepsHome(NewLimiter(numShards, maxKeys, hasher), numShards, hasher, calls, window);
  }

  lemma {:induction false} RunKeepsMaxKeys<K>(l: Limiter<K>, calls: seq<Call<K>>, window: Duration)
    requires l.Valid()
    ensures Exec(l, calls, window).maxKeys == l.maxKeys
    decreases |calls|
  {
    if calls != [] {
      RunKeepsMaxKeys(AllowIn(l, calls[0].key, calls[0].limit, calls[0].now, window).0, calls[1..], window);
      hide AllowIn;
    }
  }

  /** Main result: a call that the naive limiter would admit is refused exactly if `maxKeys` other keys, all with
      its own remainder and each with an active timestamp, fill its shard. */
  lemma RefusalIsAtHome<K>(numShards: nat, maxKeys: nat, hasher: K -> nat, calls: seq<Call<K>>, c: Call<K>, window: Duration)
    requires numShards > 0 && ClockOrdered(NewLimiter(numShards, maxKeys, hasher), calls + [c], c.key)
    requires CountActive(NaiveLog(NewLimiter(numShards, maxKeys, hasher), calls, window, c.key), c.now, window) < c.limit
    ensures var end := Exec(NewLimiter(numShards, maxKeys, hasher), calls, window);
            && |end.shards| == numShards
            && var m := end.shards[hasher(c.key) % numShards];
               !AllowIn(end, c.key, c.limit, c.now, window).1 <==>
                 && |m| == maxKeys && c.key !in m
                 && forall k :: k in m ==> hasher(k) % numShards == hasher(c.key) % numShards && CountActive(m[k].log, c.now, window) > 0
  {
    var l := NewLimiter(numShards, maxKeys, hasher);
    var end := Exec(l, calls, window);
    DecisionsAreNaive(numShards, maxKeys, hasher, calls, c, window);
    RunKeepsHome(l, numShards, hasher, calls, window);
    RunKeepsMaxKeys(l, calls, window);
    ShardsStayBounded(l, calls, window);
    hide Exec, ClockOrdered, NaiveLog, AllowIn;
    var home := hasher(c.key) % numShards;
    var m := end.shards[home];
    assert end.ShardOf(c.key) == home;
    if NoRoom(end, c.key, c.now, window) {
      NoRoomMeansOthersActive(end, c.key, c.now, window);
    } else {
      RoomMeansSomeExpired(m, maxKeys, c.key, c.now, window);
    }
  }

  lemma RoomMeansSomeExpired<K>(m: Shard<K>, maxKeys: nat, key: K, now: int, window: Duration)
    requires key in m || |MakeRoom(m, maxKeys, now, window)| < maxKeys
    ensures !(|m| == maxKeys && key !in m && forall k :: k in m ==> CountActive(m[k].log, now, window) > 0)
  {
    if forall k :: k in m ==> CountActive(m[k].log, now, window) > 0 {
      NothingToSweep(m, now, window);
    }
  }

  lemma NothingToSweep<K>(m: Shard<K>, now: int, window: Duration)
    requires forall k :: k in m ==> CountActive(m[k].log, now, window) > 0
    ensures |Sweep(m, now, window)| == |m|
  {
    forall k | k in m ensures k in Sweep(m, now, window) {
      CountedMeansLeft(m[k].log, now, window);
    }
    assert Sweep(m, now, window).Keys == m.Keys;
    assert |Sweep(m, now, window).Keys| == |Sweep(m, now, window)| && |m.Keys| == |m|;
  }

  lemma {:induction false} CountedMeansLeft(log: seq<int>, now: int, window: Duration)
    requires CountActive(log, now, window) > 0
    ensures ActiveSuffix(log, now, window) != []
  {
    if !Active(log[0], now, window) {
      CountedMeansLeft(log[1..], now, window);
    }
  }

  // ----- Independence -----

  /** The calls on keys with remainder `home`. */
  function CallsOf<K>(calls: seq<Call<K>>, n: nat, hasher: K -> nat, home: nat): seq<Call<K>>
    requires n > 0
  {
    if calls == [] then []
    else (if hasher(calls[0].key) % n == home then [calls[0]] else []) + CallsOf(calls[1..], n, hasher, home)
  }

  /** Two limiters that agree on one shard. */
  ghost predicate AgreeOn<K>(l: Limiter<K>, m: Limiter<K>, n: nat, home: nat) {
    |l.shards| == |m.shards| == n && home < n && l.shards[home] == m.shards[home] && l.maxKeys == m.maxKeys && l.hasher == m.hasher
  }

  lemma SameCall<K>(l: Limiter<K>, m: Limiter<K>, n: nat, home: nat, c: Call<K>, window: Duration)
    requires AgreeOn(l, m, n, home) && l.hasher(c.key) % n == home
    ensures AgreeOn(AllowIn(l, c.key, c.limit, c.now, window).0, AllowIn(m, c.key, c.limit, c.now, window).0, n, home)
    ensures AllowIn(l, c.key, c.limit, c.now, window).1 == AllowIn(m, c.key, c.limit, c.now, window).1
  {
    assert l.ShardOf(c.key) == home == m.ShardOf(c.key);
    hide AllowInShard;
  }

  lemma OtherCall<K>(l: Limiter<K>, m: Limiter<K>, n: nat, home: nat, c: Call<K>, window: Duration)
    requires AgreeOn(l, m, n, home) && l.hasher(c.key) % n != home
    ensures AgreeOn(AllowIn(l, c.key, c.limit, c.now, window).0, m, n, home)
  {
    assert l.ShardOf(c.key) == l.hasher(c.key) % n;
    hide AllowInShard;
  }

  lemma {:induction false} SameRun<K>(l: Limiter<K>, m: Limiter<K>, n: nat, home: nat, calls: seq<Call<K>>, window: Duration)
    requires AgreeOn(l, m, n, home)
    ensures AgreeOn(Exec(l, calls, window), Exec(m, CallsOf(calls, n, l.hasher, home), window), n, home)
    decreases |calls|
  {
    hide AllowIn;
    if calls != [] {
      var c := calls[0];
      var l' := AllowIn(l, c.key, c.limit, c.now, window).0;
      var rest := CallsOf(calls[1..], n, l.hasher, home);
      if l.hasher(c.key) % n == home {
        SameCall(l, m, n, home, c, window);
        SameRun(l', AllowIn(m, c.key, c.limit, c.now, window).0, n, home, calls[1..], window);
        assert CallsOf(calls, n, l.hasher, home)[1..] == rest;
      } else {
        OtherCall(l, m, n, home, c, window);
        SameRun(l', m, n, home, calls[1..], window);
        assert CallsOf(calls, n, l.hasher, home) == rest;
      }
    }
  }

  lemma SameDecision<K>(l: Limiter<K>, n: nat, home: nat, calls: seq<Call<K>>, c: Call<K>, window: Duration)
    requires |l.shards| == n > home && l.hasher(c.key) % n == home
    ensures AllowIn(Exec(l, calls, window), c.key, c.limit, c.now, window).1
            == AllowIn(Exec(l, CallsOf(calls, n, l.hasher, home), window), c.key, c.limit, c.now, window).1
  {
    SameRun(l, l, n, home, calls, window);
    var end, own := Exec(l, calls, window), Exec(l, CallsOf(calls, n, l.hasher, home), window);
    HasherStays(l, calls, window);
    hide Exec, AllowIn, CallsOf;
    SameCall(end, own, n, home, c, window);
  }

  lemma {:induction false} HasherStays<K>(l: Limiter<K>, calls: seq<Call<K>>, window: Duration)
    requires l.Valid()
    ensures Exec(l, calls, window).hasher == l.hasher
    decreases |calls|
  {
    if calls != [] {
      HasherStays(AllowIn(l, calls[0].key, calls[0].limit, calls[0].now, window).0, calls[1..], window);
      hide AllowIn;
    }
  }

  /** Main result: a decision is the same as if no call on a key with another remainder had ever been made. */
  lemma OtherRemaindersDoNotMatter<K>(numShards: nat, maxKeys: nat, hasher: K -> nat, calls: seq<Call<K>>, c: Call<K>, window: Duration)
    requires numShards > 0
    ensures var l := NewLimiter(numShards, maxKeys, hasher);
            var own := CallsOf(calls, numShards, hasher, hasher(c.key) % numShards);
            AllowIn(Exec(l, calls, window), c.key, c.limit, c.now, window).1
            == AllowIn(Exec(l, own, window), c.key, c.limit, c.now, window).1
  {
    var l, home := NewLimiter(numShards, maxKeys, hasher), hasher(c.key) % numShards;
    hide Exec, AllowIn, CallsOf;
    SameDecision(l, numShards, home, calls, c, window);
  }
}
