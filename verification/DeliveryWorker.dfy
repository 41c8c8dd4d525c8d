/** One delivery attempt: what a worker decides about a row from the snapshot it was given. */
module DeliveryWorkers {
  import opened DeliveryQueue
  import opened QueueRuns
  import opened DeliveryQueueRepositories

  const DELIVERY_LOCK_DURATION: int := 120
  const ACKNOWLEDGMENT_TIMEOUT: int := 60
  const INITIAL_BACKOFF_DURATION: int := 30
  const MAXIMUM_BACKOFF_DURATION: int := 3600
  const MAXIMUM_RETRY_ATTEMPTS: int := 20
  const TERMINAL_RETRY_BACKOFF: int := 3600

  // ----- Backoff, in 64-bit arithmetic -----

  function Pow2(n: nat): (p: nat)
    ensures p > 0
  {
    if n == 0 then 1 else 2 * Pow2(n - 1)
  }

  /** Two's complement wrap-around to 64 bits. */
  function Wrap64(x: int): int {
    (x + 0x8000_0000_0000_0000) % 0x1_0000_0000_0000_0000 - 0x8000_0000_0000_0000
  }

  /** int64(1 << uint(n)): a negative count is a huge one, and a huge one shifts everything out. */
  function ShiftedOne(n: int): int {
    if n < 0 || n >= 64 then 0 else Wrap64(Pow2(n))
  }

  function Backoff(retryCount: int): int {
    var backoff := Wrap64(ShiftedOne(retryCount) * INITIAL_BACKOFF_DURATION);
    if backoff > MAXIMUM_BACKOFF_DURATION then MAXIMUM_BACKOFF_DURATION else backoff
  }

  lemma {:induction false} Pow2Grows(m: nat, n: nat)
    requires m <= n
    ensures Pow2(m) <= Pow2(n)
    decreases n - m
  {
    if m < n {
      Pow2Grows(m + 1, n);
    }
  }

  lemma WrapKeepsSmall(x: int)
    requires 0 <= x < 0x8000_0000_0000_0000
    ensures Wrap64(x) == x
  {
  }

  lemma Pow2Of21()
    ensures Pow2(21) == 0x20_0000
  {
    assert Pow2(6) == 64;
    assert Pow2(11) == 2048;
    assert Pow2(16) == 0x1_0000;
  }

  /** For every count a worker can reach nothing overflows, and the delay is the doubling one, between
      one minute and one hour. */
  lemma BackoffInRange(retryCount: int)
    requires 1 <= retryCount <= MAXIMUM_RETRY_ATTEMPTS + 1
    ensures Backoff(retryCount) == if retryCount < 7 then 30 * Pow2(retryCount) else MAXIMUM_BACKOFF_DURATION
    ensures 60 <= Backoff(retryCount) <= 3600
  {
    Pow2Of21();
    Pow2Grows(1, retryCount);
    Pow2Grows(retryCount, 21);
    WrapKeepsSmall(Pow2(retryCount));
    WrapKeepsSmall(Pow2(retryCount) * INITIAL_BACKOFF_DURATION);
    hide Wrap64;
    assert Pow2(1) == 2 && Pow2(6) == 64 && Pow2(7) == 128;
    if retryCount < 7 {
      Pow2Grows(retryCount, 6);
    } else {
      Pow2Grows(7, retryCount);
    }
  }

  /** The bound on the count is what keeps it so: at a count of 59 the delay would turn negative. */
  lemma BackoffOverflows()
    ensures Backoff(59) < 0
  {
    Pow2Of21();
    assert Pow2(26) == 0x400_0000;
    assert Pow2(31) == 0x8000_0000;
    assert Pow2(36) == 0x10_0000_0000;
    assert Pow2(41) == 0x200_0000_0000;
    assert Pow2(46) == 0x4000_0000_0000;
    assert Pow2(51) == 0x8_0000_0000_0000;
    assert Pow2(56) == 0x100_0000_0000_0000;
    assert Pow2(59) == 0x800_0000_0000_0000;
  }

  // ----- Decisions -----

  /** An attempt that follows an unacknowledged push counts as one more retry. */
  function RetriesSoFar(snapshot: Row): int {
    if snapshot.ackDeadline > 0 then snapshot.retryCount + 1 else snapshot.retryCount
  }

  predicate Exhausted(snapshot: Row) {
    RetriesSoFar(snapshot) > MAXIMUM_RETRY_ATTEMPTS
  }

  datatype RetryState = RetryState(retryCount: int, nextRetry: int, ackDeadline: int)

  /** What a worker that read `now` writes back; `pushed` is the result of the push, if it made one. */
  function WriteBack(snapshot: Row, now: int, pushed: bool): RetryState {
    if Exhausted(snapshot) then RetryState(RetriesSoFar(snapshot), now + TERMINAL_RETRY_BACKOFF, 0)
    else if pushed then
      RetryState(RetriesSoFar(snapshot), now + ACKNOWLEDGMENT_TIMEOUT, now + ACKNOWLEDGMENT_TIMEOUT)
    else
      var retries := if snapshot.ackDeadline == 0 then RetriesSoFar(snapshot) + 1 else RetriesSoFar(snapshot);
      RetryState(retries, now + Backoff(retries), 0)
  }

  /** A push notification goes out after the first failed attempt only. */
  predicate Notifies(snapshot: Row, pushed: bool) {
    !Exhausted(snapshot) && !pushed && snapshot.retryCount == 0
  }

  function Store(q: Queue, id: nat, s: RetryState): Queue {
    UpdateState(q, id, s.retryCount, s.nextRetry, s.ackDeadline)
  }

  /** The progress of a row towards being parked: it never goes back. */
  function Progress(row: Row): int {
    2 * row.retryCount + if row.ackDeadline > 0 then 1 else 0
  }

  /** The retry states a row can be in. */
  predicate Sane(row: Row) {
    && 0 <= row.retryCount <= MAXIMUM_RETRY_ATTEMPTS + 1
    && row.ackDeadline >= 0
    && (row.retryCount == MAXIMUM_RETRY_ATTEMPTS + 1 ==> row.ackDeadline == 0)
  }

  function Rewritten(row: Row, s: RetryState): Row {
    row.(retryCount := s.retryCount, nextRetry := s.nextRetry, ackDeadline := s.ackDeadline)
  }

  /** One attempt keeps a row sane, moves it forward unless it is already parked, and schedules the next
      one at least a minute after this one. */
  lemma AttemptMovesForward(row: Row, now: int, pushed: bool)
    requires Sane(row) && now >= 0
    ensures var next := Rewritten(row, WriteBack(row, now, pushed));
            && Sane(next)
            && next.nextRetry >= now + 60
            && (!Exhausted(row) ==> Progress(next) > Progress(row) && Progress(row) <= 40)
            && (Exhausted(row) ==> next.retryCount == MAXIMUM_RETRY_ATTEMPTS + 1)
            && (row.retryCount == MAXIMUM_RETRY_ATTEMPTS + 1 ==> Exhausted(row))
            && (row.retryCount < MAXIMUM_RETRY_ATTEMPTS ==> !Exhausted(row))
  {
    if !Exhausted(row) && !pushed {
      BackoffInRange(if row.ackDeadline == 0 then RetriesSoFar(row) + 1 else RetriesSoFar(row));
    }
  }

  // ----- The schedule, from the row before and the row after -----

  /** 30 seconds doubled `retries` times, but no more than an hour. */
  function DoubledDelay(retries: nat): nat {
    if 30 * Pow2(retries) < 3600 then 30 * Pow2(retries) else 3600
  }

  /** How an attempt at `now` reschedules a row. Twenty retries are the limit; an unacknowledged push counts
      as one. A push waits a minute for its acknowledgement, a failed one backs off by its new count. */
  predicate FollowsSchedule(before: Row, now: int, pushed: bool, after: RetryState) {
    var retries := if before.ackDeadline > 0 then before.retryCount + 1 else before.retryCount;
    if retries > 20 then
      after.retryCount == retries && after.nextRetry == now + 3600 && after.ackDeadline == 0
    else if pushed then
      after.retryCount == retries && after.nextRetry == after.ackDeadline == now + 60
    else
      && after.retryCount == before.retryCount + 1 >= 0
      && after.nextRetry == now + DoubledDelay(after.retryCount)
      && after.ackDeadline == 0
  }

  function StateOf(row: Row): RetryState {
    RetryState(row.retryCount, row.nextRetry, row.ackDeadline)
  }

  /** Main result: every attempt follows the schedule exactly and leaves the message alone. */
  lemma AttemptFollowsSchedule(row: Row, now: int, pushed: bool)
    requires Sane(row)
    ensures var next := Rewritten(row, WriteBack(row, now, pushed));
            FollowsSchedule(row, now, pushed, StateOf(next)) && SameMessage(row, next)
    ensures Notifies(row, pushed) <==> row.retryCount == 0 && !pushed
  {
    if !Exhausted(row) && !pushed {
      DelayIsTheBackoff(row.retryCount + 1);
    }
    hide Backoff, DoubledDelay;
  }

  lemma DelayIsTheBackoff(retryCount: nat)
    requires 1 <= retryCount <= 21
    ensures Backoff(retryCount) == DoubledDelay(retryCount)
  {
    BackoffInRange(retryCount);
    hide Backoff;
    assert Pow2(6) == 64 && Pow2(7) == 128;
    if retryCount < 7 { Pow2Grows(retryCount, 6); } else { Pow2Grows(7, retryCount); }
  }

  /** The table after a claimed attempt: the row follows the schedule if it is still there, and if others do
      nothing meanwhile it is the only one that changes. */
  lemma AttemptOnTable(q: Queue, quotas: Quotas, id: nat, seen: Row, now: int, pushed: bool, others: seq<Statement>)
    requires id in q.rows && q.rows[id].nextRetry <= seen.nextRetry
    ensures var held := ClaimItem(q, id, now + DELIVERY_LOCK_DURATION, seen.nextRetry).0;
            var after := Store(Run(held, quotas, others), id, WriteBack(seen, now, pushed));
            && (Sane(seen) && id in after.rows ==> FollowsSchedule(seen, now, pushed, StateOf(after.rows[id])))
            && (others == [] ==>
                  && after.rows.Keys == q.rows.Keys && after.nextId == q.nextId
                  && SameMessage(q.rows[id], after.rows[id])
                  && forall other :: other in after.rows && other != id ==> after.rows[other] == q.rows[other])
    ensures ClaimItem(q, id, now + DELIVERY_LOCK_DURATION, seen.nextRetry).0 == q.(rows := q.rows[id := q.rows[id].(nextRetry := now + 120)])
    ensures Sane(seen) ==> (Notifies(seen, pushed) <==> !pushed && seen.retryCount == 0)
  {
    if Sane(seen) { AttemptFollowsSchedule(seen, now, pushed); }
    hide WriteBack, FollowsSchedule;
  }

  class DeliveryWorker {
    const repository: DeliveryQueueRepository
    const hasPushAdapter: bool

    constructor (repository: DeliveryQueueRepository, hasPushAdapter: bool)
      ensures this.repository == repository && this.hasPushAdapter == hasPushAdapter
    {
      this.repository, this.hasPushAdapter := repository, hasPushAdapter;
    }

    /** `now` is the reading the worker starts with, `pushed` the answer of the session registry, and
        `others` what everyone else does to the table between the claim and the write-back. */
    method Process(item: Item, now: int, pushed: bool, others: seq<Statement>) returns (claimed: bool, notified: bool)
      modifies repository
      ensures claimed <==> item.id in old(repository.rows) && old(repository.rows)[item.id].nextRetry <= item.row.nextRetry
      ensures !claimed ==> repository.Table() == old(repository.Table())
      ensures claimed ==>
                var held := ClaimItem(old(repository.Table()), item.id, now + DELIVERY_LOCK_DURATION, item.row.nextRetry).0;
                repository.Table() == Store(Run(held, repository.quotas, others), item.id, WriteBack(item.row, now, pushed))
      ensures claimed && Sane(item.row) && item.id in repository.rows ==>
                FollowsSchedule(item.row, now, pushed, StateOf(repository.rows[item.id]))
      ensures claimed && others == [] ==>
                && repository.rows.Keys == old(repository.rows).Keys && repository.nextId == old(repository.nextId)
                && SameMessage(old(repository.rows)[item.id], repository.rows[item.id])
                && forall id :: id in repository.rows && id != item.id ==> repository.rows[id] == old(repository.rows)[id]
      ensures notified <==> claimed && Notifies(item.row, pushed) && hasPushAdapter
      ensures Sane(item.row) ==> (notified <==> claimed && !pushed && item.row.retryCount == 0 && hasPushAdapter)
    {
      hide Backoff, Run, HasRoom, FollowsSchedule, SameMessage;
      notified := false;
      claimed := repository.ClaimItem(item.id, now + DELIVERY_LOCK_DURATION, item.row.nextRetry);
      if !claimed {
        return;
      }
      AttemptOnTable(old(repository.Table()), repository.quotas, item.id, item.row, now, pushed, others);
      repository.RunOthers(others);
      var retryCount := item.row.retryCount;
      if item.row.ackDeadline > 0 {
        retryCount := retryCount + 1;
      }
      if retryCount > MAXIMUM_RETRY_ATTEMPTS {
        repository.UpdateState(item.id, retryCount, now + TERMINAL_RETRY_BACKOFF, 0);
        return;
      }
      if pushed {
        var deadline := now + ACKNOWLEDGMENT_TIMEOUT;
        repository.UpdateState(item.id, retryCount, deadline, deadline);
        return;
      }
      if item.row.ackDeadline == 0 {
        retryCount := retryCount + 1;
      }
      var backoff := Backoff(retryCount);
      repository.UpdateState(item.id, retryCount, now + backoff, 0);
      if item.row.retryCount == 0 && hasPushAdapter {
        notified := true;
      }
    }
  }
}
