/** Whole runs of the sharded limiter, compared with a naive one that never forgets: it keeps every
    admitted timestamp of a key for ever and counts those that are still active. */
module LimiterRuns {
  import opened Basics
  import opened RateWindows
  import opened TimeWindowLimiters

  datatype Call<K> = Call(key: K, limit: int, now: int)

  /** Clock readings do not go back, in the order in which the calls take the lock of the shard of `key`.
      Calls on other shards are free: no lock orders them. */
  predicate ClockOrdered<K>(l: Limiter<K>, calls: seq<Call<K>>, key: K)
    requires l.Valid()
  {
    forall i, j :: 0 <= i < j < |calls| && Meets(l, calls[i], key) && Meets(l, calls[j], key) ==> calls[i].now <= calls[j].now
  }

  /** Does the call go to the shard of `key`? */
  predicate Meets<K>(l: Limiter<K>, c: Call<K>, key: K)
    requires l.Valid()
  {
    l.ShardOf(c.key) == l.ShardOf(key)
  }

  /** The last reading made under the lock of the shard of `key` once `c` is done; `from` was the last before. */
  function ReadingAfter<K>(l: Limiter<K>, c: Call<K>, key: K, from: int): int
    requires l.Valid()
  {
    if Meets(l, c, key) then c.now else from
  }

  function LastReading<K>(l: Limiter<K>, calls: seq<Call<K>>, key: K, from: int): int
    requires l.Valid()
  {
    if calls == [] then from else LastReading(l, calls[1..], key, ReadingAfter(l, calls[0], key, from))
  }

  /** A time no later than any call. */
  function Earliest<K>(calls: seq<Call<K>>): (t: int)
    ensures forall c <- calls :: t <= c.now
  {
    if calls == [] then 0
    else
      var rest := Earliest(calls[1..]);
      if calls[0].now < rest then calls[0].now else rest
  }

  lemma {:induction false} LastReadingUpTo<K>(l: Limiter<K>, calls: seq<Call<K>>, key: K, from: int, now: int)
    requires l.Valid() && from <= now && forall c <- calls :: Meets(l, c, key) ==> c.now <= now
    ensures LastReading(l, calls, key, from) <= now
  {
    if calls != [] {
      assert calls[0] in calls && forall c <- calls[1..] :: c in calls;
      LastReadingUpTo(l, calls[1..], key, ReadingAfter(l, calls[0], key, from), now);
    }
  }

  /** A call does not move keys between shards. */
  lemma {:induction false} SameShards<K>(l: Limiter<K>, m: Limiter<K>, calls: seq<Call<K>>, key: K, from: int)
    requires l.Valid() && m.Valid() && |m.shards| == |l.shards| && m.hasher == l.hasher
    ensures forall c: Call<K> :: Meets(m, c, key) == Meets(l, c, key)
    ensures LastReading(m, calls, key, from) == LastReading(l, calls, key, from)
  {
    if calls != [] {
      SameShards(l, m, calls[1..], key, ReadingAfter(l, calls[0], key, from));
    }
  }

  function Exec<K>(l: Limiter<K>, calls: seq<Call<K>>, window: Duration): (r: Limiter<K>)
    requires l.Valid()
    ensures r.Valid()
    decreases |calls|
  {
    if calls == [] then l
    else Exec(AllowIn(l, calls[0].key, calls[0].limit, calls[0].now, window).0, calls[1..], window)
  }

  /** The timestamp one call adds to the naive log of `key`, if any. */
  function Admitted<K(==)>(l: Limiter<K>, c: Call<K>, window: Duration, key: K): seq<int>
    requires l.Valid()
  {
    if c.key == key && AllowIn(l, c.key, c.limit, c.now, window).1 then [c.now] else []
  }

  /** The naive log of `key`: the times of all its admitted calls. */
  function NaiveLog<K(==)>(l: Limiter<K>, calls: seq<Call<K>>, window: Duration, key: K): seq<int>
    requires l.Valid()
    decreases |calls|
  {
    if calls == [] then []
    else
      Admitted(l, calls[0], window, key)
      + NaiveLog(AllowIn(l, calls[0].key, calls[0].limit, calls[0].now, window).0, calls[1..], window, key)
  }

  function CountActive(log: seq<int>, now: int, window: Duration): nat {
    if log == [] then 0 else (if Active(log[0], now, window) then 1 else 0) + CountActive(log[1..], now, window)
  }

  /** How many timestamps lie in the half-open interval (lo, hi]. */
  function CountIn(log: seq<int>, lo: int, hi: int): nat {
    if log == [] then 0 else (if lo < log[0] <= hi then 1 else 0) + CountIn(log[1..], lo, hi)
  }

  // ----- Logs that no one can tell apart from now on -----

  ghost predicate SameActive(a: seq<int>, b: seq<int>, from: int, window: Duration) {
    forall t :: t >= from ==> ActiveSuffix(a, t, window) == ActiveSuffix(b, t, window)
  }

  /** Pruning now and again later is pruning later. */
  lemma {:induction false} PruneTwice(log: seq<int>, now: int, later: int, window: Duration)
    requires now <= later
    ensures ActiveSuffix(ActiveSuffix(log, now, window), later, window) == ActiveSuffix(log, later, window)
  {
    if log != [] && !Active(log[0], now, window) {
      PruneTwice(log[1..], now, later, window);
    }
  }

  /** What survives after an append depends only on what would have survived before it. */
  lemma {:induction false} SuffixOfAppend(log: seq<int>, x: int, t: int, window: Duration)
    ensures ActiveSuffix(log + [x], t, window)
            == if ActiveSuffix(log, t, window) == [] then ActiveSuffix([x], t, window)
               else ActiveSuffix(log, t, window) + [x]
  {
    if log == [] {
      assert log + [x] == [x];
    } else {
      assert (log + [x])[0] == log[0] && (log + [x])[1..] == log[1..] + [x];
      if !Active(log[0], t, window) {
        SuffixOfAppend(log[1..], x, t, window);
      }
    }
  }

  lemma PruneKeepsSameActive(a: seq<int>, b: seq<int>, from: int, now: int, window: Duration)
    requires SameActive(a, b, from, window) && from <= now
    ensures SameActive(ActiveSuffix(a, now, window), b, now, window)
  {
    forall t | t >= now ensures ActiveSuffix(ActiveSuffix(a, now, window), t, window) == ActiveSuffix(b, t, window) {
      PruneTwice(a, now, t, window);
    }
  }

  lemma AppendKeepsSameActive(a: seq<int>, b: seq<int>, from: int, x: int, window: Duration)
    requires SameActive(a, b, from, window)
    ensures SameActive(a + [x], b + [x], from, window)
  {
    forall t | t >= from ensures ActiveSuffix(a + [x], t, window) == ActiveSuffix(b + [x], t, window) {
      SuffixOfAppend(a, x, t, window);
      SuffixOfAppend(b, x, t, window);
    }
  }

  predicate Sorted(log: seq<int>) {
    forall i, j :: 0 <= i < j < |log| ==> log[i] <= log[j]
  }

  /** In a sorted log the active timestamps are exactly the ones pruning leaves. */
  lemma {:induction false} PruningCountsActive(log: seq<int>, now: int, window: Duration)
    requires Sorted(log)
    ensures CountActive(log, now, window) == |ActiveSuffix(log, now, window)|
  {
    if log != [] {
      PruningCountsActive(log[1..], now, window);
      if Active(log[0], now, window) && |log| > 1 {
        assert Active(log[1], now, window);
      }
    }
  }

  // ----- One call -----

  function LogOf<K>(m: Shard<K>, key: K): seq<int> {
    if key in m then m[key].log else []
  }

  /** The shard of `key` is as good as the naive log `naive`, from time `from` on. */
  ghost predicate Tracks<K>(l: Limiter<K>, key: K, naive: seq<int>, from: int, window: Duration)
    requires l.Valid()
  {
    SameActive(LogOf(l.shards[l.ShardOf(key)], key), naive, from, window)
  }

  /** The one reason to refuse a call that the naive limiter admits: a new key and no room. */
  predicate NoRoom<K>(l: Limiter<K>, key: K, now: int, window: Duration)
    requires l.Valid()
  {
    var m := l.shards[l.ShardOf(key)];
    key !in m && |MakeRoom(m, l.maxKeys, now, window)| >= l.maxKeys
  }

  lemma RoomTracks<K>(m: Shard<K>, maxKeys: nat, key: K, naive: seq<int>, from: int, now: int, window: Duration)
    requires SameActive(LogOf(m, key), naive, from, window) && from <= now
    ensures SameActive(LogOf(MakeRoom(m, maxKeys, now, window), key), naive, now, window)
  {
    PruneKeepsSameActive(LogOf(m, key), naive, from, now, window);
  }

  /** The decision on `key` is the naive one unless there is no room, and the log keeps track. */
  lemma OwnCallTracks<K>(l: Limiter<K>, c: Call<K>, naive: seq<int>, from: int, window: Duration)
    requires l.Valid() && from <= c.now && Tracks(l, c.key, naive, from, window)
    ensures var (l', ok) := AllowIn(l, c.key, c.limit, c.now, window);
            && Tracks(l', c.key, if ok then naive + [c.now] else naive, c.now, window)
            && (ok <==> |ActiveSuffix(naive, c.now, window)| < c.limit && !NoRoom(l, c.key, c.now, window))
  {
    var m := l.shards[l.ShardOf(c.key)];
    PruneKeepsSameActive(LogOf(m, c.key), naive, from, c.now, window);
    AppendKeepsSameActive(ActiveSuffix(LogOf(m, c.key), c.now, window), naive, c.now, c.now, window);
  }

  /** Calls on other keys may sweep the entry of `key` away, but never an active timestamp; calls on other
      shards do not touch it at all, whatever their clock readings. */
  lemma OtherCallTracks<K>(l: Limiter<K>, c: Call<K>, key: K, naive: seq<int>, from: int, window: Duration)
    requires l.Valid() && (Meets(l, c, key) ==> from <= c.now) && key != c.key && Tracks(l, key, naive, from, window)
    ensures Tracks(AllowIn(l, c.key, c.limit, c.now, window).0, key, naive, ReadingAfter(l, c, key, from), window)
  {
    if Meets(l, c, key) {
      RoomTracks(l.shards[l.ShardOf(key)], l.maxKeys, key, naive, from, c.now, window);
    }
  }

  lemma CallTracks<K>(l: Limiter<K>, c: Call<K>, key: K, naive: seq<int>, from: int, window: Duration)
    requires l.Valid() && (Meets(l, c, key) ==> from <= c.now) && Tracks(l, key, naive, from, window)
    ensures Tracks(AllowIn(l, c.key, c.limit, c.now, window).0, key, naive + Admitted(l, c, window, key),
                   ReadingAfter(l, c, key, from), window)
  {
    if key == c.key {
      OwnCallTracks(l, c, naive, from, window);
    } else {
      OtherCallTracks(l, c, key, naive, from, window);
    }
    assert naive + [] == naive;
  }

  // ----- The sliding window -----

  /** Any admission is at least a window after the one `limit` places before it. */
  predicate Spaced(log: seq<int>, limit: nat, window: Duration) {
    forall i :: limit <= i < |log| ==> log[i] - log[i - limit] >= window
  }

  lemma {:induction false} CountInSplit(a: seq<int>, b: seq<int>, lo: int, hi: int)
    ensures CountIn(a + b, lo, hi) == CountIn(a, lo, hi) + CountIn(b, lo, hi)
  {
    if a == [] {
      assert a + b == b;
    } else {
      assert (a + b)[0] == a[0] && (a + b)[1..] == a[1..] + b;
      CountInSplit(a[1..], b, lo, hi);
    }
  }

  lemma {:induction false} CountInAtMostLength(log: seq<int>, lo: int, hi: int)
    ensures CountIn(log, lo, hi) <= |log|
    ensures (forall i :: 0 <= i < |log| ==> log[i] <= lo) ==> CountIn(log, lo, hi) == 0
  {
    if log != [] {
      CountInAtMostLength(log[1..], lo, hi);
    }
  }

  lemma LastIntervalBounded(log: seq<int>, limit: nat, window: Duration, t: int)
    requires Sorted(log) && Spaced(log, limit, window) && limit < |log| && log[|log| - 1] <= t
    ensures CountIn(log, t - window, t) <= limit
  {
    hide CountIn;
    var n := |log|;
    var early, recent := log[..n - limit], log[n - limit..];
    assert log[n - 1] - log[n - 1 - limit] >= window;
    assert forall i :: 0 <= i < |early| ==> early[i] <= t - window;
    CountInSplit(early, recent, t - window, t);
    CountInAtMostLength(early, t - window, t);
    CountInAtMostLength(recent, t - window, t);
    assert log == early + recent;
  }

  /** Spacing bounds every window-long interval, wherever it lies. */
  lemma {:induction false} SpacedMeansBounded(log: seq<int>, limit: nat, window: Duration, t: int)
    requires Sorted(log) && Spaced(log, limit, window)
    ensures CountIn(log, t - window, t) <= limit
  {
    var n := |log|;
    if n <= limit {
      CountInAtMostLength(log, t - window, t);
    } else {
      var last := log[n - 1];
      if last > t {
        assert log == log[..n - 1] + [last];
        CountInSplit(log[..n - 1], [last], t - window, t);
        SpacedMeansBounded(log[..n - 1], limit, window, t);
      } else {
        LastIntervalBounded(log, limit, window, t);
      }
    }
  }

  predicate UpTo(log: seq<int>, t: int) {
    Sorted(log) && forall x :: x in log ==> x <= t
  }

  predicate LimitsUpTo<K(==)>(calls: seq<Call<K>>, key: K, limit: nat) {
    forall c :: c in calls && c.key == key ==> c.limit <= limit
  }

  lemma AppendKeepsSpacing(log: seq<int>, from: int, now: int, limit: nat, window: Duration)
    requires UpTo(log, from) && Spaced(log, limit, window) && from <= now
    requires 0 < limit && (limit <= |log| ==> now - log[|log| - limit] >= window)
    ensures UpTo(log + [now], now) && Spaced(log + [now], limit, window)
  {
    var longer := log + [now];
    forall i, j | 0 <= i < j < |longer| ensures longer[i] <= longer[j] {
      assert log[i] in log;
    }
    forall i | limit <= i < |longer| ensures longer[i] - longer[i - limit] >= window {
      if i < |log| { assert log[i] - log[i - limit] >= window; }
    }
  }

  /** An admitted call finds the timestamp `limit` places back already expired. */
  lemma AdmissionIsSpaced(log: seq<int>, from: int, now: int, limit: nat, window: Duration)
    requires UpTo(log, from) && from <= now && |ActiveSuffix(log, now, window)| < limit <= |log|
    ensures now - log[|log| - limit] >= window
  {
    ActiveSuffixIsExact(log, now, window);
    assert !Active(log[|log| - limit], now, window);
    assert log[|log| - limit] in log;
  }

  /** The invariant of whole runs, for one key, its naive log and a bound on its limits. */
  ghost predicate OnTrack<K>(l: Limiter<K>, key: K, naive: seq<int>, from: int, limit: nat, window: Duration)
    requires l.Valid()
  {
    Tracks(l, key, naive, from, window) && UpTo(naive, from) && Spaced(naive, limit, window)
  }

  lemma CallStaysOnTrack<K>(l: Limiter<K>, c: Call<K>, key: K, naive: seq<int>, from: int, limit: nat, window: Duration)
    requires l.Valid() && (Meets(l, c, key) ==> from <= c.now) && OnTrack(l, key, naive, from, limit, window)
    requires c.key == key ==> c.limit <= limit
    ensures OnTrack(AllowIn(l, c.key, c.limit, c.now, window).0, key, naive + Admitted(l, c, window, key),
                    ReadingAfter(l, c, key, from), limit, window)
  {
    CallTracks(l, c, key, naive, from, window);
    hide SameActive;
    if Admitted(l, c, window, key) == [c.now] {
      OwnCallTracks(l, c, naive, from, window);
      if limit <= |naive| {
        AdmissionIsSpaced(naive, from, c.now, limit, window);
      }
      AppendKeepsSpacing(naive, from, c.now, limit, window);
    } else {
      assert naive + Admitted(l, c, window, key) == naive;
    }
  }

  lemma {:induction false} RunStaysOnTrack<K>(l: Limiter<K>, calls: seq<Call<K>>, key: K, naive: seq<int>, from: int,
                                               limit: nat, window: Duration)
    requires l.Valid() && ClockOrdered(l, calls, key) && forall c <- calls :: Meets(l, c, key) ==> from <= c.now
    requires OnTrack(l, key, naive, from, limit, window) && LimitsUpTo(calls, key, limit)
    ensures OnTrack(Exec(l, calls, window), key, naive + NaiveLog(l, calls, window, key), LastReading(l, calls, key, from), limit, window)
    ensures |Exec(l, calls, window).shards| == |l.shards| && Exec(l, calls, window).hasher == l.hasher
    decreases |calls|
  {
    hide OnTrack, AllowIn, Admitted, Meets;
    if calls == [] {
      assert naive + NaiveLog(l, calls, window, key) == naive;
    } else {
      var c, rest := calls[0], calls[1..];
      assert c in calls && forall d <- rest :: d in calls;
      var l', more := AllowIn(l, c.key, c.limit, c.now, window).0, Admitted(l, c, window, key);
      var from' := ReadingAfter(l, c, key, from);
      CallStaysOnTrack(l, c, key, naive, from, limit, window);
      SameShards(l, l', rest, key, from');
      assert forall i :: 0 <= i < |rest| ==> rest[i] == calls[i + 1];
      RunStaysOnTrack(l', rest, key, naive + more, from', limit, window);
      assert naive + NaiveLog(l, calls, window, key)
             == (naive + more) + NaiveLog(l', rest, window, key);
    }
  }

  function NewLimiter<K>(numShards: nat, maxKeys: nat, hasher: K -> nat): (l: Limiter<K>)
    requires numShards > 0
    ensures l.Valid()
  {
    Limiter(seq(numShards, _ => map[]), maxKeys, hasher)
  }

  /** Main result: over any run on any keys, with sweeps that delete and recreate entries on the way,
      no interval (t - window, t] holds more admitted calls of a key than its limit. */
  lemma SlidingWindowBound<K>(numShards: nat, maxKeys: nat, hasher: K -> nat, calls: seq<Call<K>>, key: K,
                              limit: nat, window: Duration, t: int)
    requires numShards > 0 && ClockOrdered(NewLimiter(numShards, maxKeys, hasher), calls, key) && LimitsUpTo(calls, key, limit)
    ensures CountIn(NaiveLog(NewLimiter(numShards, maxKeys, hasher), calls, window, key), t - window, t) <= limit
  {
    var l := NewLimiter(numShards, maxKeys, hasher);
    var log := NaiveLog(l, calls, window, key);
    RunStaysOnTrack(l, calls, key, [], Earliest(calls), limit, window);
    assert [] + log == log;
    SpacedMeansBounded(log, limit, window, t);
  }

  function OneShard(k: int): nat { 0 }

  /** A limiter with a single entry. */
  function Single(w: Window): (l: Limiter<int>)
    ensures l.Valid()
  {
    Limiter([map[0 := w]], 1, OneShard)
  }

  lemma SingleCall(w: Window, c: Call<int>, rest: seq<Call<int>>, window: Duration)
    requires c.key == 0
    ensures var (r, ok) := RecordWindow(PruneWindow(w, c.now, window), c.now, c.limit);
            NaiveLog(Single(w), [c] + rest, window, 0)
            == (if ok then [c.now] else []) + NaiveLog(Single(r), rest, window, 0)
  {
    var r := RecordWindow(PruneWindow(w, c.now, window), c.now, c.limit).0;
    assert map[0 := w][0 := r] == map[0 := r];
    assert [map[0 := w]][0 := map[0 := r]] == [map[0 := r]];
    assert ([c] + rest)[1..] == rest;
  }

  lemma FirstCall(c: Call<int>, rest: seq<Call<int>>, window: Duration)
    requires c.key == 0 && c.limit > 0
    ensures NaiveLog(NewLimiter(1, 1, OneShard), [c] + rest, window, 0)
            == [c.now] + NaiveLog(Single(RecordWindow(EMPTY_WINDOW, c.now, c.limit).0), rest, window, 0)
  {
    hide RecordWindow;
    var l, r := NewLimiter(1, 1, OneShard), RecordWindow(EMPTY_WINDOW, c.now, c.limit).0;
    assert AllowIn(l, 0, c.limit, c.now, window).0.shards == [map[0 := r]];
    assert ([c] + rest)[1..] == rest;
  }

  lemma LateCallsAreAdmitted(c: Call<int>, d: Call<int>)
    requires c == Call(0, 2, 11) && d == Call(0, 2, 2)
    ensures NaiveLog(Single(Window([0, 1], 2, 0, 2, 0)), [c, d], 10, 0) == [11, 2]
  {
    assert ActiveSuffix([1], 11, 10) == [];
    SingleCall(Window([0, 1], 2, 0, 2, 0), c, [d], 10);
    SingleCall(Window([11], 2, 0, 3, 2), d, [], 10);
    assert NaiveLog(Single(Window([11, 2], 2, 0, 4, 2)), [], 10, 0) == [];
    hide NaiveLog;
    assert [c, d] == [c] + [d] && [d] == [d] + [];
  }

  lemma EarlyCallsAreAdmitted(a: Call<int>, b: Call<int>, rest: seq<Call<int>>)
    requires a == Call(0, 2, 0) && b == Call(0, 2, 1)
    ensures NaiveLog(NewLimiter(1, 1, OneShard), [a] + ([b] + rest), 10, 0)
            == [0] + ([1] + NaiveLog(Single(Window([0, 1], 2, 0, 2, 0)), rest, 10, 0))
  {
    hide NaiveLog;
    assert RecordWindow(EMPTY_WINDOW, 0, 2).0 == Window([0], 2, 0, 1, 0);
    assert [0] + [1] == [0, 1];
    assert RecordWindow(PruneWindow(Window([0], 2, 0, 1, 0), 1, 10), 1, 2) == (Window([0, 1], 2, 0, 2, 0), true);
    hide RecordWindow, PruneWindow;
    FirstCall(a, [b] + rest, 10);
    SingleCall(Window([0], 2, 0, 1, 0), b, rest, 10);
  }

  /** The clock order is needed: a reading taken early and used late lets a third call into a window
      that has room for two, because a later reading has already pruned the first two. */
  lemma StaleReadingBreaksTheBound(a: Call<int>, b: Call<int>, c: Call<int>, d: Call<int>)
    requires a == Call(0, 2, 0) && b == Call(0, 2, 1) && c == Call(0, 2, 11) && d == Call(0, 2, 2)
    ensures !ClockOrdered(NewLimiter(1, 1, OneShard), [a, b, c, d], 0) && LimitsUpTo([a, b, c, d], 0, 2)
    ensures CountIn(NaiveLog(NewLimiter(1, 1, OneShard), [a, b, c, d], 10, 0), 9 - 10, 9) > 2
  {
    hide NaiveLog;
    assert [a, b, c, d][2].now > [a, b, c, d][3].now;
    EarlyCallsAreAdmitted(a, b, [c, d]);
    LateCallsAreAdmitted(c, d);
    assert [a, b, c, d] == [a] + ([b] + [c, d]);
    CountInSplit([0], [1] + [11, 2], -1, 9);
    CountInSplit([1], [11, 2], -1, 9);
    CountInSplit([11], [2], -1, 9);
    assert [11, 2] == [11] + [2];
  }

  // ----- Refinement of the naive limiter -----

  function MaxLimit<K>(calls: seq<Call<K>>): (limit: nat)
    ensures forall c :: c in calls ==> c.limit <= limit
  {
    if calls == [] then 0
    else
      var rest := MaxLimit(calls[1..]);
      if calls[0].limit > rest then calls[0].limit else rest
  }

  /** Main result: after any run, the next decision is the naive limiter's, except that a key without
      an entry is refused when its shard stays full after the sweep. */
  lemma DecisionsAreNaive<K>(numShards: nat, maxKeys: nat, hasher: K -> nat, calls: seq<Call<K>>, c: Call<K>, window: Duration)
    requires numShards > 0 && ClockOrdered(NewLimiter(numShards, maxKeys, hasher), calls + [c], c.key)
    ensures var l := NewLimiter(numShards, maxKeys, hasher);
            var end := Exec(l, calls, window);
            AllowIn(end, c.key, c.limit, c.now, window).1
            <==> CountActive(NaiveLog(l, calls, window, c.key), c.now, window) < c.limit
                 && !NoRoom(end, c.key, c.now, window)
  {
    var l := NewLimiter(numShards, maxKeys, hasher);
    var from := Earliest(calls + [c]);
    assert forall i :: 0 <= i < |calls| ==> calls[i] == (calls + [c])[i] && calls[i] in calls + [c];
    assert (calls + [c])[|calls|] == c;
    RunStaysOnTrack(l, calls, c.key, [], from, MaxLimit(calls), window);
    LastReadingUpTo(l, calls, c.key, from, c.now);
    var log := NaiveLog(l, calls, window, c.key);
    assert [] + log == log;
    OwnCallTracks(Exec(l, calls, window), c, log, LastReading(l, calls, c.key, from), window);
    PruningCountsActive(log, c.now, window);
  }

  // ----- Memory bound, and what a refusal for lack of room means -----

  predicate Bounded<K>(l: Limiter<K>) {
    forall i :: 0 <= i < |l.shards| ==> |l.shards[i]| <= l.maxKeys
  }

  lemma SweepIsNoLarger<K>(m: Shard<K>, now: int, window: Duration)
    ensures |Sweep(m, now, window)| <= |m|
  {
    SubsetIsNoLarger(Sweep(m, now, window).Keys, m.Keys);
    assert |Sweep(m, now, window).Keys| == |Sweep(m, now, window)|;
  }

  lemma CallKeepsBound<K>(l: Limiter<K>, c: Call<K>, window: Duration)
    requires l.Valid() && Bounded(l)
    ensures Bounded(AllowIn(l, c.key, c.limit, c.now, window).0)
  {
    SweepIsNoLarger(l.shards[l.ShardOf(c.key)], c.now, window);
  }

  /** No run makes a shard larger than `maxKeys`. */
  lemma {:induction false} ShardsStayBounded<K>(l: Limiter<K>, calls: seq<Call<K>>, window: Duration)
    requires l.Valid() && Bounded(l)
    ensures Bounded(Exec(l, calls, window))
    decreases |calls|
  {
    if calls != [] {
      CallKeepsBound(l, calls[0], window);
      ShardsStayBounded(AllowIn(l, calls[0].key, calls[0].limit, calls[0].now, window).0, calls[1..], window);
    }
  }

  /** A refusal for lack of room names `maxKeys` other keys, each with an active timestamp. */
  lemma NoRoomMeansOthersActive<K>(l: Limiter<K>, key: K, now: int, window: Duration)
    requires l.Valid() && Bounded(l) && NoRoom(l, key, now, window)
    ensures var m := l.shards[l.ShardOf(key)];
            && |m| == l.maxKeys && key !in m
            && forall k :: k in m ==> CountActive(m[k].log, now, window) > 0
  {
    var m := l.shards[l.ShardOf(key)];
    SweepIsNoLarger(m, now, window);
    var s := Sweep(m, now, window);
    assert |s.Keys| == |s| && |m.Keys| == |m|;
    SubsetOfSameSize(s.Keys, m.Keys);
    forall k | k in m ensures CountActive(m[k].log, now, window) > 0 {
      assert k in s;
      ActiveSomewhere(m[k].log, now, window);
    }
  }

  lemma {:induction false} ActiveSomewhere(log: seq<int>, now: int, window: Duration)
    requires ActiveSuffix(log, now, window) != []
    ensures CountActive(log, now, window) > 0
  {
    if !Active(log[0], now, window) {
      ActiveSomewhere(log[1..], now, window);
    }
  }
}
