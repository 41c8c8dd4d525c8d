/** The repository over the delivery queue: the table is updated in place. */
module DeliveryQueueRepositories {
  import opened Basics
  import opened DeliveryQueue
  import opened QueueRuns
  import opened EnvelopeSends

  /** A row with its id, as handed to callers. */
  datatype Item = Item(id: nat, row: Row)

  function Ids(items: seq<Item>): (ids: seq<nat>)
    ensures |ids| == |items|
  {
    seq(|items|, i requires 0 <= i < |items| => items[i].id)
  }

  /** The rows a dispatch at `now` may be given: due, each once, the longest overdue first, and none left
      out that is more overdue than one taken, or at all while the batch is not full. */
  ghost predicate IsDueBatch(q: Queue, now: int, batch: nat, ids: seq<nat>) {
    && |ids| <= batch
    && (forall id :: id in ids ==> id in q.rows && q.rows[id].nextRetry <= now)
    && (forall i, j :: 0 <= i < j < |ids| ==> ids[i] != ids[j])
    && (forall i, j :: 0 <= i < j < |ids| && ids[i] in q.rows && ids[j] in q.rows ==>
          q.rows[ids[i]].nextRetry <= q.rows[ids[j]].nextRetry)
    && (forall id :: id in q.rows && q.rows[id].nextRetry <= now && id !in ids ==>
          |ids| == batch && forall other :: other in ids && other in q.rows ==> q.rows[other].nextRetry <= q.rows[id].nextRetry)
  }

  lemma {:induction false} LeastExists(ids: set<nat>, key: map<nat, int>)
    requires ids != {} && ids <= key.Keys
    ensures exists k :: k in ids && forall j :: j in ids ==> key[k] <= key[j]
  {
    var x :| x in ids;
    if ids != {x} {
      LeastExists(ids - {x}, key);
      var k :| k in ids - {x} && forall j :: j in ids - {x} ==> key[k] <= key[j];
      var least := if key[x] <= key[k] then x else k;
      assert forall j :: j in ids ==> key[least] <= key[j];
    }
  }

  /** ORDER BY key LIMIT limit: ties come out in no particular order. */
  method OrderBy(ids: set<nat>, key: map<nat, int>, limit: nat) returns (out: seq<nat>)
    requires ids <= key.Keys
    ensures forall id :: id in out ==> id in ids
    ensures |out| <= limit
    ensures forall i, j :: 0 <= i < j < |out| ==> out[i] != out[j]
    ensures forall i, j :: 0 <= i < j < |out| ==> out[i] in key && out[j] in key && key[out[i]] <= key[out[j]]
    ensures forall id :: id in ids && id !in out ==> |out| == limit && forall o :: o in out ==> key[o] <= key[id]
  {
    out := [];
    var left := ids;
    while left != {} && |out| < limit
      invariant left <= ids && |out| <= limit
      invariant forall id :: id in ids <==> id in left || id in out
      invariant forall id :: id in out ==> id !in left
      invariant forall i, j :: 0 <= i < j < |out| ==> out[i] != out[j] && key[out[i]] <= key[out[j]]
      invariant forall o, id :: o in out && id in left ==> key[o] <= key[id]
      decreases left
    {
      LeastExists(left, key);
      var k :| k in left && forall j :: j in left ==> key[k] <= key[j];
      out := out + [k];
      left := left - {k};
    }
  }

  class DeliveryQueueRepository {
    var rows: map<nat, Row>
    var nextId: nat
    const quotas: Quotas
    const batchSize: nat

    function Table(): Queue
      reads this
    {
      Queue(rows, nextId)
    }

    constructor (quotas: Quotas, batchSize: nat)
      ensures Table() == EMPTY_QUEUE && this.quotas == quotas && this.batchSize == batchSize
      ensures Invariant(Table(), quotas)
    {
      rows, nextId := map[], 1;
      this.quotas, this.batchSize := quotas, batchSize;
      new;
      forall d ensures MessageCount(Table(), d) == 0 && MailboxBytes(Table(), d) == 0 {
        SmallerTablesHoldLess(map[], map[], d, 1);
        assert CountBelow(rows, d, 0) == 0 && BytesBelow(rows, d, 0) == 0;
      }
    }

    method GetLastSequence(device: Name) returns (sequence: int)
      ensures sequence == LastSequence(Table(), device)
    {
      sequence := LastSequence(Table(), device);
    }

    /** What other callers do while this one is between two statements. */
    method RunOthers(ss: seq<Statement>)
      modifies this
      ensures Table() == Run(old(Table()), quotas, ss)
    {
      var i := 0;
      while i < |ss|
        invariant i <= |ss|
        invariant Run(Table(), quotas, ss[i..]) == Run(old(Table()), quotas, ss)
      {
        var q := Execute(Table(), quotas, ss[i]);
        assert ss[i..][1..] == ss[i + 1..];
        rows, nextId := q.rows, q.nextId;
        i := i + 1;
      }
    }

    method EnqueueEnvelope(e: Envelope, ttl: int, sequence: int, now: int, others: seq<Statement>)
      returns (r: Result<(), EnqueueError>)
      modifies this
      ensures (Table(), r) == Enqueue(old(Table()), quotas, e, now, ttl, sequence, others)
    {
      if |e.payload| > quotas.maxEnvelope {
        return Err(EnvelopeTooLarge);
      }
      var expiry := now + ttl;
      var affected := 0;
      if HasRoom(Table(), quotas, e.recipient, |e.payload|) && !MessageIsQueued(Table(), e.messageId) {
        rows := rows[nextId := EnvelopeRow(e, expiry, sequence, now)];
        nextId := nextId + 1;
        affected := 1;
      }
      RunOthers(others);
      if affected == 0 {
        var existing := FindMessage(Table(), e.messageId);
        if existing.None? {
          return Err(QuotaExceeded);
        }
        var sender := if existing.value.sender.Some? then existing.value.sender.value else "";
        if sender != e.sender || existing.value.device != e.recipient || existing.value.payload != e.payload {
          return Err(DuplicateConflict);
        }
      }
      return Ok(());
    }

    /** The arms of a fan-out, all evaluated on the table as it is. */
    method EvaluateArms(devices: seq<Name>, payload: Bytes, expiry: int) returns (arms: seq<Row>)
      ensures arms == FanOutRows(Table(), quotas, devices, payload, expiry)
    {
      hide HasRoom;
      arms := [];
      assert devices[0..] == devices;
      for i := 0 to |devices|
        invariant arms + FanOutRows(Table(), quotas, devices[i..], payload, expiry)
                  == FanOutRows(Table(), quotas, devices, payload, expiry)
      {
        var fits := HasRoom(Table(), quotas, devices[i], |payload|);
        if fits {
          arms := arms + [FanOutRow(Table(), devices[i], payload, expiry)];
        }
        assert devices[i..][1..] == devices[i + 1..];
      }
      assert devices[|devices|..] == [];
    }

    method StoreAll(arms: seq<Row>)
      modifies this
      ensures Table() == InsertAll(old(Table()), arms)
    {
      assert arms[0..] == arms;
      for i := 0 to |arms|
        invariant InsertAll(Table(), arms[i..]) == InsertAll(old(Table()), arms)
      {
        rows := rows[nextId := arms[i]];
        nextId := nextId + 1;
        assert arms[i..][1..] == arms[i + 1..];
      }
      assert arms[|arms|..] == [];
    }

    method FanOutMessage(devices: seq<Name>, payload: Bytes, ttl: int, now: int) returns (r: Result<(), EnqueueError>)
      modifies this
      ensures Table() == FanOut(old(Table()), quotas, devices, payload, now + ttl)
      ensures r == if devices != [] && (forall d :: d in devices ==> !HasRoom(old(Table()), quotas, d, |payload|))
                   then Err(QuotaExceeded) else Ok(())
    {
      if |devices| == 0 {
        return Ok(());
      }
      var arms := EvaluateArms(devices, payload, now + ttl);
      NoRowsMeansNoRoom(Table(), quotas, devices, payload, now + ttl);
      StoreAll(arms);
      if |arms| == 0 {
        return Err(QuotaExceeded);
      }
      return Ok(());
    }

    method ClaimItem(id: nat, newNextRetry: int, current: int) returns (claimed: bool)
      modifies this
      ensures (Table(), claimed) == DeliveryQueue.ClaimItem(old(Table()), id, newNextRetry, current)
    {
      claimed := id in rows && rows[id].nextRetry <= current;
      if claimed {
        rows := rows[id := rows[id].(nextRetry := newNextRetry)];
      }
    }

    method UpdateState(id: nat, retryCount: int, nextRetry: int, ackDeadline: int)
      modifies this
      ensures Table() == DeliveryQueue.UpdateState(old(Table()), id, retryCount, nextRetry, ackDeadline)
    {
      if id in rows {
        rows := rows[id := rows[id].(retryCount := retryCount, nextRetry := nextRetry, ackDeadline := ackDeadline)];
      }
    }

    method Acknowledge(device: Name, id: nat)
      modifies this
      ensures Table() == DeliveryQueue.Acknowledge(old(Table()), device, id)
    {
      if id in rows && rows[id].device == device {
        rows := rows - {id};
      }
    }

    method Cleanup(now: int)
      modifies this
      ensures Table() == DeliveryQueue.Cleanup(old(Table()), now)
    {
      rows := map id | id in rows && rows[id].expiry > now :: rows[id];
    }

    method GetQueue(device: Name, now: int) returns (items: seq<Item>)
      ensures IsPoll(Table(), device, now, Ids(items))
      ensures forall item :: item in items ==> item.id in rows && item.row == rows[item.id]
    {
      var matching := set id | id in rows && rows[id].device == device && rows[id].expiry > now;
      var ids := OrderBy(matching, map id | id in rows :: rows[id].sequence, |matching|);
      AllTaken(matching, ids);
      items := Fetch(ids);
    }

    method GetDueItems(now: int) returns (items: seq<Item>)
      ensures IsDueBatch(Table(), now, batchSize, Ids(items))
      ensures forall item :: item in items ==> item.id in rows && item.row == rows[item.id]
    {
      var matching := set id | id in rows && rows[id].nextRetry <= now;
      var ids := OrderBy(matching, map id | id in rows :: rows[id].nextRetry, batchSize);
      items := Fetch(ids);
    }

    /** The loop over a result set. */
    method Fetch(ids: seq<nat>) returns (items: seq<Item>)
      requires forall id :: id in ids ==> id in rows
      ensures Ids(items) == ids
      ensures forall item :: item in items ==> item.id in rows && item.row == rows[item.id]
    {
      items := [];
      for i := 0 to |ids|
        invariant Ids(items) == ids[..i]
        invariant forall item :: item in items ==> item.id in rows && item.row == rows[item.id]
      {
        items := items + [Item(ids[i], rows[ids[i]])];
      }
    }
  }

  /** A selection without repetition that may be as long as the whole set leaves nothing out. */
  lemma AllTaken(ids: set<nat>, out: seq<nat>)
    requires forall id :: id in out ==> id in ids
    requires forall i, j :: 0 <= i < j < |out| ==> out[i] != out[j]
    requires forall id :: id in ids && id !in out ==> |out| == |ids|
    ensures forall id :: id in ids <==> id in out
  {
    if exists id :: id in ids && id !in out {
      DistinctElements(out);
      SubsetOfSameSize(Elements(out), ids);
    }
  }

  function Elements(s: seq<nat>): (r: set<nat>)
    ensures forall x :: x in r <==> x in s
  {
    set x | x in s
  }

  lemma {:induction false} DistinctElements(s: seq<nat>)
    requires forall i, j :: 0 <= i < j < |s| ==> s[i] != s[j]
    ensures |Elements(s)| == |s|
  {
    if s != [] {
      DistinctElements(s[1..]);
      assert s == [s[0]] + s[1..] && s[0] !in s[1..];
      assert Elements(s) == {s[0]} + Elements(s[1..]);
    }
  }
}
