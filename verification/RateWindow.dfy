/** The sliding-window log of one rate-limited key: a ring buffer that is pruned, grown and
    written in place, and the queue of timestamps that it stands for. */
module RateWindows {

  const MAX_DURATION: int := 0x7fff_ffff_ffff_ffff
  const MIN_DURATION: int := -0x8000_0000_0000_0000

  /** A time span in nanoseconds, 64 bits wide. */
  type Duration = d: int | MIN_DURATION <= d <= MAX_DURATION

  /** The span from `ts` to `now`, saturated to what a Duration can hold. */
  function Elapsed(now: int, ts: int): (d: Duration) {
    if now - ts > MAX_DURATION then MAX_DURATION
    else if now - ts < MIN_DURATION then MIN_DURATION
    else now - ts
  }

  /** A timestamp counts against the limit while it is younger than the window. */
  predicate Active(ts: int, now: int, window: Duration) {
    Elapsed(now, ts) < window
  }

  /** Saturation changes the verdict only for the smallest window, below which no span lies. */
  lemma SaturationIsHarmless(ts: int, now: int, window: Duration)
    ensures Active(ts, now, window) <==> now - ts < window && window > MIN_DURATION
  {
  }

  /** What remains of a log once the longest expired prefix is gone. */
  function ActiveSuffix(log: seq<int>, now: int, window: Duration): (rest: seq<int>)
    ensures |rest| <= |log|
  {
    if log == [] || Active(log[0], now, window) then log
    else ActiveSuffix(log[1..], now, window)
  }

  /** Pruning drops exactly the longest prefix of expired timestamps. */
  lemma {:induction false} ActiveSuffixIsExact(log: seq<int>, now: int, window: Duration)
    ensures var rest := ActiveSuffix(log, now, window);
            && rest == log[|log| - |rest|..]
            && (forall i :: 0 <= i < |log| - |rest| ==> !Active(log[i], now, window))
            && (rest != [] ==> Active(rest[0], now, window))
  {
    if log != [] && !Active(log[0], now, window) {
      ActiveSuffixIsExact(log[1..], now, window);
      var rest := ActiveSuffix(log[1..], now, window);
      forall i | 0 <= i < |log| - |rest| ensures !Active(log[i], now, window) {
        if i > 0 { assert log[i] == log[1..][i - 1]; }
      }
    }
  }

  /** A rate window as a value. `copied`, `recorded` and `pruned` count, over the life of the window,
      the elements moved by growth, the timestamps accepted and the timestamps dropped. */
  datatype Window = Window(log: seq<int>, capacity: nat, copied: nat, recorded: nat, pruned: nat)

  const EMPTY_WINDOW: Window := Window([], 0, 0, 0, 0)

  function PruneWindow(w: Window, now: int, window: Duration): (r: Window)
    ensures r.recorded - r.pruned - |r.log| == w.recorded - w.pruned - |w.log|
  {
    var rest := ActiveSuffix(w.log, now, window);
    w.(log := rest, pruned := w.pruned + |w.log| - |rest|)
  }

  /** Storage growth: four slots at first, then doubling, never beyond the limit. */
  function Grow(w: Window, limit: nat): (r: Window)
    requires |w.log| < limit
  {
    if w.capacity == 0 then w.(capacity := if limit < 4 then limit else 4)
    else if |w.log| == w.capacity && w.capacity < limit then
      w.(capacity := if 2 * w.capacity > limit then limit else 2 * w.capacity, copied := w.copied + |w.log|)
    else w
  }

  function RecordWindow(w: Window, now: int, limit: int): (r: (Window, bool))
    ensures r.1 <==> |w.log| < limit
    ensures r.0.log == if r.1 then w.log + [now] else w.log
  {
    if |w.log| >= limit then (w, false)
    else
      var g := Grow(w, limit);
      (g.(log := g.log + [now], recorded := g.recorded + 1), true)
  }

  // ----- The ring buffer -----

  /** Where index `i` lands in a buffer of `n` slots when it passes the end at most once. */
  function Wrapped(i: nat, n: nat): nat
    requires i < 2 * n
  {
    if i < n then i else i - n
  }

  /** The index arithmetic of the buffer, done with a remainder. */
  method SlotOf(i: nat, n: nat) returns (slot: nat)
    requires i < 2 * n
    ensures slot == Wrapped(i, n)
  {
    if i >= n {
      assert i == n * 1 + (i - n);
    }
    slot := i % n;
  }

  /** The `count` elements that start at `head` and wrap around the end of `data`. */
  function Ring(data: seq<int>, head: nat, count: nat): (s: seq<int>)
    requires count <= |data| && (if data == [] then head == 0 else head < |data|)
    ensures |s| == count
  {
    seq(count, i requires 0 <= i < count => data[Wrapped(head + i, |data|)])
  }

  lemma RingAt(data: seq<int>, head: nat, count: nat, i: nat)
    requires i < count <= |data| && head < |data|
    ensures Ring(data, head, count)[i] == data[Wrapped(head + i, |data|)]
  {
  }

  /** One turn of the pruning loop: stop at an active head, or step over an expired one. */
  lemma PruneStep(data: seq<int>, head: nat, count: nat, now: int, window: Duration)
    requires 0 < count <= |data| && head < |data|
    ensures if Active(data[head], now, window) then
              ActiveSuffix(Ring(data, head, count), now, window) == Ring(data, head, count)
            else
              ActiveSuffix(Ring(data, head, count), now, window)
              == ActiveSuffix(Ring(data, Wrapped(head + 1, |data|), count - 1), now, window)
  {
    RingAt(data, head, count, 0);
    var ring, next := Ring(data, head, count), Ring(data, Wrapped(head + 1, |data|), count - 1);
    forall i | 0 <= i < count - 1 ensures next[i] == ring[1..][i] {
      RingAt(data, Wrapped(head + 1, |data|), count - 1, i);
      RingAt(data, head, count, i + 1);
    }
    assert next == ring[1..];
  }

  lemma RingAppend(data: seq<int>, head: nat, count: nat, x: int)
    requires count < |data| && head < |data|
    ensures Ring(data[Wrapped(head + count, |data|) := x], head, count + 1) == Ring(data, head, count) + [x]
  {
    var slot := Wrapped(head + count, |data|);
    var ring, longer := Ring(data, head, count), Ring(data[slot := x], head, count + 1);
    forall i | 0 <= i < count ensures longer[i] == ring[i] {
      RingAt(data, head, count, i);
      RingAt(data[slot := x], head, count + 1, i);
    }
    RingAt(data[slot := x], head, count + 1, count);
    assert longer == ring + [x];
  }

  /** Copied to the front of a larger buffer, the elements read the same. */
  lemma RingAtFront(data: seq<int>, log: seq<int>)
    requires log <= data && (data == [] ==> log == [])
    ensures Ring(data, 0, |log|) == log
  {
    forall i | 0 <= i < |log| ensures Ring(data, 0, |log|)[i] == log[i] {
      RingAt(data, 0, |log|, i);
    }
  }

  /** `timestamps` is the slice of the original; a nil slice is an array of length zero. */
  class RateWindow {
    var timestamps: array<int>
    var head: nat
    var count: nat
    ghost var copied: nat
    ghost var recorded: nat
    ghost var pruned: nat

    ghost predicate Valid()
      reads this, timestamps
    {
      && count <= timestamps.Length
      && (if timestamps.Length == 0 then head == 0 else head < timestamps.Length)
    }

    /** The live timestamps, oldest first, across the wrap-around. */
    ghost function Contents(): (s: seq<int>)
      reads this, timestamps
      requires Valid()
      ensures |s| == count
    {
      Ring(timestamps[..], head, count)
    }

    ghost function State(): Window
      reads this, timestamps
      requires Valid()
    {
      Window(Contents(), timestamps.Length, copied, recorded, pruned)
    }

    constructor ()
      ensures Valid() && fresh(timestamps)
      ensures State() == EMPTY_WINDOW
    {
      timestamps := new int[0];
      head, count := 0, 0;
      copied, recorded, pruned := 0, 0, 0;
    }

    method Prune(now: int, window: Duration)
      requires Valid()
      modifies `head, `count, `pruned
      ensures Valid()
      ensures State() == PruneWindow(old(State()), now, window)
    {
      ghost var data, rest := timestamps[..], ActiveSuffix(Contents(), now, window);
      while count > 0
        invariant Valid() && pruned + count == old(pruned + count)
        invariant ActiveSuffix(Ring(data, head, count), now, window) == rest
      {
        PruneStep(data, head, count, now, window);
        var ts := timestamps[head];
        if Elapsed(now, ts) < window {
          break;
        }
        head := SlotOf(head + 1, timestamps.Length);
        count := count - 1;
        pruned := pruned + 1;
      }
    }

    method Record(now: int, limit: int) returns (ok: bool)
      requires Valid()
      modifies this, timestamps
      ensures Valid() && (timestamps == old(timestamps) || fresh(timestamps))
      ensures (State(), ok) == RecordWindow(old(State()), now, limit)
    {
      if count >= limit {
        return false;
      }
      EnsureRoom(limit);
      RingAppend(timestamps[..], head, count, now);
      var slot := SlotOf(head + count, timestamps.Length);
      timestamps[slot] := now;
      count := count + 1;
      recorded := recorded + 1;
      return true;
    }

    /** The allocation and growth half of Record. */
    method EnsureRoom(limit: nat)
      requires Valid() && count < limit
      modifies `timestamps, `head, `copied
      ensures Valid() && (timestamps == old(timestamps) || fresh(timestamps))
      ensures count < timestamps.Length
      ensures State() == Grow(old(State()), limit)
    {
      if timestamps.Length == 0 {
        var newCap := 4;
        if limit < 4 {
          newCap := limit;
        }
        timestamps := new int[newCap];
        head := 0;
      } else if count == timestamps.Length && timestamps.Length < limit {
        var newCap := timestamps.Length * 2;
        if newCap > limit {
          newCap := limit;
        }
        var newTs := new int[newCap];
        ghost var log := Contents();
        for i := 0 to count
          modifies newTs
          invariant newTs[..i] == log[..i]
        {
          RingAt(timestamps[..], head, count, i);
          var slot := SlotOf(head + i, timestamps.Length);
          newTs[i] := timestamps[slot];
        }
        RingAtFront(newTs[..], log);
        copied := copied + count;
        timestamps := newTs;
        head := 0;
      }
    }
  }
}
