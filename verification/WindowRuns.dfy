/** What every sequence of Prune and Record calls keeps, for one window. */
module WindowRuns {
  import opened RateWindows

  datatype WindowOp = Prune(now: int, window: Duration) | Record(at: int, limit: int)

  function Step(w: Window, op: WindowOp): Window {
    match op
    case Prune(now, window) => PruneWindow(w, now, window)
    case Record(at, limit) => RecordWindow(w, at, limit).0
  }

  function Run(w: Window, ops: seq<WindowOp>): Window
    decreases |ops|
  {
    if ops == [] then w else Run(Step(w, ops[0]), ops[1..])
  }

  /** The timestamp a call adds to the log, if it adds one. */
  function Admitted(w: Window, op: WindowOp): seq<int> {
    if op.Record? && RecordWindow(w, op.at, op.limit).1 then [op.at] else []
  }

  /** The timestamps accepted by a run, in order: what an unbounded log would hold. */
  function Accepted(w: Window, ops: seq<WindowOp>): seq<int>
    decreases |ops|
  {
    if ops == [] then [] else Admitted(w, ops[0]) + Accepted(Step(w, ops[0]), ops[1..])
  }

  /** The buffer holds `all` minus its oldest `pruned` elements. */
  predicate Holds(w: Window, all: seq<int>) {
    w.recorded == |all| && w.pruned <= |all| && w.log == all[w.pruned..]
  }

  lemma StepHolds(w: Window, op: WindowOp, all: seq<int>)
    requires Holds(w, all)
    ensures Holds(Step(w, op), all + Admitted(w, op))
  {
    match op
    case Prune(now, window) =>
      ActiveSuffixIsExact(w.log, now, window);
      assert all + [] == all;
    case Record(at, limit) =>
  }

  /** First in, first out: after any run the buffer holds the accepted timestamps minus the pruned
      ones, which were the oldest, and every accepted timestamp is still held or was pruned once. */
  lemma {:induction false} BufferIsAQueue(w: Window, ops: seq<WindowOp>, all: seq<int>)
    requires Holds(w, all)
    ensures Holds(Run(w, ops), all + Accepted(w, ops))
    decreases |ops|
  {
    if ops == [] {
      assert all + Accepted(w, ops) == all;
    } else {
      hide Step, Admitted, Holds;
      StepHolds(w, ops[0], all);
      var next, added, rest := Step(w, ops[0]), Admitted(w, ops[0]), Accepted(Step(w, ops[0]), ops[1..]);
      BufferIsAQueue(next, ops[1..], all + added);
      assert Run(w, ops) == Run(next, ops[1..]) && Accepted(w, ops) == added + rest;
      hide Run, Accepted;
      assert all + (added + rest) == (all + added) + rest;
    }
  }

  predicate LimitsUpTo(ops: seq<WindowOp>, limit: nat) {
    forall op :: op in ops && op.Record? ==> op.limit <= limit
  }

  /** Changing limits never make the buffer larger than the largest of them. */
  lemma {:induction false} CapacityNeverExceedsLargestLimit(w: Window, ops: seq<WindowOp>, limit: nat)
    requires |w.log| <= w.capacity <= limit && LimitsUpTo(ops, limit)
    ensures |Run(w, ops).log| <= Run(w, ops).capacity <= limit
    decreases |ops|
  {
    if ops != [] {
      assert ops[0] in ops;
      CapacityNeverExceedsLargestLimit(Step(w, ops[0]), ops[1..], limit);
    }
  }

  predicate LimitsFixed(ops: seq<WindowOp>, limit: nat) {
    forall op :: op in ops && op.Record? ==> op.limit == limit
  }

  /** Doubling pays for itself: before the last growth fewer elements were moved than fit. */
  predicate GrowthPaid(w: Window, limit: nat) {
    && |w.log| <= w.capacity <= limit
    && if w.capacity == 0 then w.copied == 0
       else if w.capacity < limit then w.copied + 4 <= w.capacity
       else w.copied < 2 * limit
  }

  /** With a fixed limit, all growth together moves fewer than two limits' worth of elements. */
  lemma {:induction false} GrowthCopiesLessThanTwiceTheLimit(w: Window, ops: seq<WindowOp>, limit: nat)
    requires GrowthPaid(w, limit) && LimitsFixed(ops, limit) && 0 < limit
    ensures GrowthPaid(Run(w, ops), limit)
    ensures Run(w, ops).copied < 2 * limit
    decreases |ops|
  {
    if ops != [] {
      assert ops[0] in ops;
      GrowthCopiesLessThanTwiceTheLimit(Step(w, ops[0]), ops[1..], limit);
    }
  }

  function Max(a: nat, b: nat): nat { if a < b then b else a }

  /** The most timestamps held at once over a run. */
  function Peak(w: Window, ops: seq<WindowOp>): nat
    decreases |ops|
  {
    if ops == [] then |w.log| else Max(|w.log|, Peak(Step(w, ops[0]), ops[1..]))
  }

  /** Storage is taken as it is needed: four slots, and after that never more than twice what was once held;
      and none before the first acceptance. */
  predicate Thrifty(w: Window, peak: nat) {
    |w.log| <= w.capacity <= Max(4, 2 * peak) && (w.recorded == 0 ==> w.capacity == 0)
  }

  lemma {:induction false} StorageFollowsUse(w: Window, ops: seq<WindowOp>, peak: nat)
    requires Thrifty(w, peak)
    ensures Thrifty(Run(w, ops), Max(peak, Peak(w, ops)))
    decreases |ops|
  {
    if ops != [] {
      var next := Step(w, ops[0]);
      assert Thrifty(next, Max(peak, |next.log|));
      hide Step, Thrifty;
      StorageFollowsUse(next, ops[1..], Max(peak, |next.log|));
      PeakAtLeast(next, ops[1..]);
      WiderIsThrifty(Run(w, ops), Max(Max(peak, |next.log|), Peak(next, ops[1..])), Max(peak, Peak(w, ops)));
    } else {
      hide Step;
      WiderIsThrifty(w, peak, Max(peak, Peak(w, ops)));
    }
  }

  lemma PeakAtLeast(w: Window, ops: seq<WindowOp>)
    ensures Peak(w, ops) >= |w.log|
  {
  }

  lemma WiderIsThrifty(w: Window, a: nat, b: nat)
    requires Thrifty(w, a) && a <= b
    ensures Thrifty(w, b)
  {
  }
}
