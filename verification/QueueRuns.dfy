/** What every run of statements on the delivery queue keeps: quotas, one live row per message id,
    and rows that stay, unchanged in what they carry, until acknowledged or expired. */
module QueueRuns {
  import opened Basics
  import opened DeliveryQueue

  // ----- Aggregates under single changes -----

  /** Every row of `a` is in `b`, for the same device and with the same payload. */
  predicate PartOf(a: map<nat, Row>, b: map<nat, Row>) {
    forall id :: id in a ==> id in b && a[id].device == b[id].device && a[id].payload == b[id].payload
  }

  lemma {:induction false} SmallerTablesHoldLess(a: map<nat, Row>, b: map<nat, Row>, device: Name, n: nat)
    requires PartOf(a, b)
    ensures CountBelow(a, device, n) <= CountBelow(b, device, n)
    ensures BytesBelow(a, device, n) <= BytesBelow(b, device, n)
  {
    if n > 0 {
      SmallerTablesHoldLess(a, b, device, n - 1);
    }
  }

  /** The rows of `device` with ids below `n` are the same in both tables. */
  predicate SameMailbox(a: map<nat, Row>, b: map<nat, Row>, device: Name, n: nat) {
    forall id :: 0 <= id < n ==> (Owns(a, device, id) <==> Owns(b, device, id)) && (Owns(a, device, id) ==> a[id] == b[id])
  }

  lemma {:induction false} SameMailboxSameTotals(a: map<nat, Row>, b: map<nat, Row>, device: Name, n: nat)
    requires SameMailbox(a, b, device, n)
    ensures CountBelow(a, device, n) == CountBelow(b, device, n)
    ensures BytesBelow(a, device, n) == BytesBelow(b, device, n)
    ensures NewestSequenceBelow(a, device, n) == NewestSequenceBelow(b, device, n)
  {
    if n > 0 {
      SameMailboxSameTotals(a, b, device, n - 1);
    }
  }

  /** An insert adds to its own mailbox and leaves the others alone. */
  lemma InsertTotals(q: Queue, row: Row, device: Name)
    ensures MessageCount(Insert(q, row), device)
            == MessageCount(q, device) + if row.device == device then 1 else 0
    ensures MailboxBytes(Insert(q, row), device)
            == MailboxBytes(q, device) + if row.device == device then |row.payload| else 0
    ensures row.device != device ==> NewestSequence(Insert(q, row), device) == NewestSequence(q, device)
  {
    SameMailboxSameTotals(q.rows, Insert(q, row).rows, device, q.nextId);
  }

  // ----- Fan-out -----

  predicate Distinct(devices: seq<Name>) {
    forall i, j :: 0 <= i < j < |devices| ==> devices[i] != devices[j]
  }

  /** One device of a fan-out on its own. */
  function FanOutOne(q: Queue, quotas: Quotas, device: Name, payload: Bytes, expiry: int): Queue {
    if HasRoom(q, quotas, device, |payload|) then Insert(q, FanOutRow(q, device, payload, expiry)) else q
  }

  /** A fan-out done as a loop over the devices, each seeing the rows of the ones before. */
  function FanOutLoop(q: Queue, quotas: Quotas, devices: seq<Name>, payload: Bytes, expiry: int): Queue
    decreases |devices|
  {
    if devices == [] then q
    else FanOutLoop(FanOutOne(q, quotas, devices[0], payload, expiry), quotas, devices[1..], payload, expiry)
  }

  lemma {:induction false} ArmsIgnoreOtherDevices(q: Queue, quotas: Quotas, row: Row, devices: seq<Name>, payload: Bytes, expiry: int)
    requires row.device !in devices
    ensures FanOutRows(Insert(q, row), quotas, devices, payload, expiry) == FanOutRows(q, quotas, devices, payload, expiry)
    decreases |devices|
  {
    if devices != [] {
      InsertTotals(q, row, devices[0]);
      ArmsIgnoreOtherDevices(q, quotas, row, devices[1..], payload, expiry);
    }
  }

  /** Main result: for distinct devices the one UNION ALL statement, all of whose arms read the old
      table, leaves the same table as enqueueing one device at a time. */
  lemma {:induction false} FanOutIsALoop(q: Queue, quotas: Quotas, devices: seq<Name>, payload: Bytes, expiry: int)
    requires Distinct(devices)
    ensures FanOut(q, quotas, devices, payload, expiry) == FanOutLoop(q, quotas, devices, payload, expiry)
    decreases |devices|
  {
    if devices != [] {
      var q' := FanOutOne(q, quotas, devices[0], payload, expiry);
      var row, rest := FanOutRow(q, devices[0], payload, expiry), FanOutRows(q, quotas, devices[1..], payload, expiry);
      assert forall i, j :: 0 <= i < j < |devices[1..]| ==> devices[1..][i] == devices[i + 1] && devices[1..][j] == devices[j + 1];
      FanOutIsALoop(q', quotas, devices[1..], payload, expiry);
      if HasRoom(q, quotas, devices[0], |payload|) {
        ArmsIgnoreOtherDevices(q, quotas, row, devices[1..], payload, expiry);
        assert FanOutRows(q, quotas, devices, payload, expiry) == [row] + rest;
        assert ([row] + rest)[1..] == rest;
      } else {
        assert [] + rest == rest;
      }
    }
  }

  /** Distinctness is needed: a device named twice gets two rows on the strength of one check, which
      breaks a quota exactly when there was room for one message only, by count or by bytes. */
  lemma RepeatedDeviceIsCheckedOnce(q: Queue, quotas: Quotas, device: Name, payload: Bytes, expiry: int)
    requires HasRoom(q, quotas, device, |payload|)
    ensures MessageCount(FanOut(q, quotas, [device, device], payload, expiry), device) == MessageCount(q, device) + 2
    ensures MessageCount(FanOut(q, quotas, [device, device], payload, expiry), device) > quotas.maxMessages
            <==> MessageCount(q, device) + 1 == quotas.maxMessages
    ensures MailboxBytes(FanOut(q, quotas, [device, device], payload, expiry), device) == MailboxBytes(q, device) + 2 * |payload|
    ensures MailboxBytes(FanOut(q, quotas, [device, device], payload, expiry), device) > quotas.maxBytes
            <==> MailboxBytes(q, device) + 2 * |payload| > quotas.maxBytes
  {
    var row := FanOutRow(q, device, payload, expiry);
    assert FanOutRows(q, quotas, [device], payload, expiry) == [row];
    assert [device, device][1..] == [device];
    assert FanOutRows(q, quotas, [device, device], payload, expiry) == [row] + [row];
    assert ([row] + [row])[1..] == [row];
    assert [row][1..] == [] && InsertAll(Insert(q, row), [row]) == Insert(Insert(q, row), row);
    InsertTotals(q, row, device);
    InsertTotals(Insert(q, row), row, device);
  }

  /** No row is added exactly when no device had room. */
  lemma {:induction false} NoRowsMeansNoRoom(q: Queue, quotas: Quotas, devices: seq<Name>, payload: Bytes, expiry: int)
    ensures FanOutRows(q, quotas, devices, payload, expiry) == []
            <==> forall d :: d in devices ==> !HasRoom(q, quotas, d, |payload|)
    decreases |devices|
  {
    if devices != [] {
      NoRowsMeansNoRoom(q, quotas, devices[1..], payload, expiry);
      assert devices == [devices[0]] + devices[1..];
    }
  }

  // ----- Invariants -----

  predicate UniqueMessageIds(q: Queue) {
    forall i, j ::
      i in q.rows && j in q.rows && q.rows[i].messageId.Some? && q.rows[i].messageId == q.rows[j].messageId ==> i == j
  }

  ghost predicate QuotasHold(q: Queue, quotas: Quotas) {
    forall d :: MessageCount(q, d) <= quotas.maxMessages && MailboxBytes(q, d) <= quotas.maxBytes
  }

  ghost predicate Invariant(q: Queue, quotas: Quotas) {
    WellFormed(q) && UniqueMessageIds(q) && QuotasHold(q, quotas)
  }

  /** The device lists of the users' tables have no repetition: `device_id` is unique there. */
  predicate Issued(s: Statement) {
    s.FanOutStmt? ==> Distinct(s.devices)
  }

  lemma InsertKeepsInvariant(q: Queue, quotas: Quotas, row: Row)
    requires Invariant(q, quotas) && HasRoom(q, quotas, row.device, |row.payload|)
    requires row.messageId.Some? ==> !MessageIsQueued(q, row.messageId.value)
    ensures Invariant(Insert(q, row), quotas)
  {
    forall d ensures MessageCount(Insert(q, row), d) <= quotas.maxMessages && MailboxBytes(Insert(q, row), d) <= quotas.maxBytes {
      InsertTotals(q, row, d);
    }
  }

  lemma {:induction false} FanOutKeepsInvariant(q: Queue, quotas: Quotas, devices: seq<Name>, payload: Bytes, expiry: int)
    requires Invariant(q, quotas)
    ensures Invariant(FanOutLoop(q, quotas, devices, payload, expiry), quotas)
    decreases |devices|
  {
    if devices != [] {
      if HasRoom(q, quotas, devices[0], |payload|) {
        InsertKeepsInvariant(q, quotas, FanOutRow(q, devices[0], payload, expiry));
      }
      hide Invariant;
      FanOutKeepsInvariant(FanOutOne(q, quotas, devices[0], payload, expiry), quotas, devices[1..], payload, expiry);
    }
  }

  /** A statement that adds no row, gives no row a new message id and changes no payload. */
  lemma ShrinkingKeepsInvariant(q: Queue, quotas: Quotas, q': Queue)
    requires Invariant(q, quotas) && q'.nextId == q.nextId && PartOf(q'.rows, q.rows)
    requires forall id :: id in q'.rows ==> id in q.rows && q'.rows[id].messageId == q.rows[id].messageId
    ensures Invariant(q', quotas)
  {
    forall d ensures MessageCount(q', d) <= quotas.maxMessages && MailboxBytes(q', d) <= quotas.maxBytes {
      SmallerTablesHoldLess(q'.rows, q.rows, d, q.nextId);
      assert MessageCount(q, d) <= quotas.maxMessages && MailboxBytes(q, d) <= quotas.maxBytes;
    }
  }

  lemma StatementKeepsInvariant(q: Queue, quotas: Quotas, s: Statement)
    requires Invariant(q, quotas) && Issued(s)
    ensures Invariant(Execute(q, quotas, s), quotas)
  {
    match s
    case InsertEnvelopeStmt(e, at, ttl, sequence) =>
      if InsertEnvelope(q, quotas, e, at, ttl, sequence).1 {
        InsertKeepsInvariant(q, quotas, EnvelopeRow(e, at + ttl, sequence, at));
      }
    case FanOutStmt(devices, payload, expiry) =>
      FanOutIsALoop(q, quotas, devices, payload, expiry);
      FanOutKeepsInvariant(q, quotas, devices, payload, expiry);
    case _ =>
      ShrinkingKeepsInvariant(q, quotas, Execute(q, quotas, s));
  }

  ghost predicate AllIssued(ss: seq<Statement>) {
    forall s :: s in ss ==> Issued(s)
  }

  /** Main result: over every run each mailbox stays within both quotas, and each message id has at
      most one live row. */
  lemma {:induction false} RunKeepsInvariant(q: Queue, quotas: Quotas, ss: seq<Statement>)
    requires Invariant(q, quotas) && AllIssued(ss)
    ensures Invariant(Run(q, quotas, ss), quotas)
    decreases |ss|
  {
    if ss != [] {
      StatementKeepsInvariant(q, quotas, ss[0]);
      hide Invariant, Execute;
      RunKeepsInvariant(Execute(q, quotas, ss[0]), quotas, ss[1..]);
    }
  }

  // ----- The life of a row -----

  /** All that a recipient can see of a row; claims and retries may change the rest. */
  predicate SameMessage(a: Row, b: Row) {
    && a.device == b.device && a.messageId == b.messageId && a.sender == b.sender && a.protocol == b.protocol
    && a.payload == b.payload && a.expiry == b.expiry && a.sequence == b.sequence
  }

  /** The only statements that take a row away: its own device's acknowledgement of its id, and a
      cleanup after its expiry. */
  predicate Removes(s: Statement, id: nat, row: Row) {
    match s
    case AcknowledgeStmt(device, acked) => acked == id && device == row.device
    case CleanupStmt(now) => row.expiry <= now
    case _ => false
  }

  lemma {:induction false} InsertAllKeepsRows(q: Queue, rows: seq<Row>)
    requires WellFormed(q)
    ensures var q' := InsertAll(q, rows);
            && WellFormed(q') && q'.nextId >= q.nextId
            && (forall id :: id < q.nextId ==> (id in q'.rows <==> id in q.rows))
            && (forall id :: id in q.rows ==> id in q'.rows && q'.rows[id] == q.rows[id])
    decreases |rows|
  {
    if rows != [] {
      InsertAllKeepsRows(Insert(q, rows[0]), rows[1..]);
    }
  }

  lemma StatementKeepsRow(q: Queue, quotas: Quotas, s: Statement, id: nat)
    requires WellFormed(q) && id < q.nextId
    ensures var q' := Execute(q, quotas, s);
            && WellFormed(q') && id < q'.nextId
            && (id in q.rows ==> (id in q'.rows <==> !Removes(s, id, q.rows[id])))
            && (id in q.rows && id in q'.rows ==> SameMessage(q.rows[id], q'.rows[id]))
            && (id !in q.rows ==> id !in q'.rows)
  {
    if s.FanOutStmt? {
      InsertAllKeepsRows(q, FanOutRows(q, quotas, s.devices, s.payload, s.expiry));
    }
  }

  ghost predicate SomeRemoves(ss: seq<Statement>, id: nat, row: Row) {
    exists s :: s in ss && Removes(s, id, row)
  }

  /** Main result: a row is gone after a run exactly when its device acknowledged it or a cleanup came
      after its expiry; until then it carries the same message, whatever workers do to it. */
  lemma {:induction false} RowLivesUntilRemoved(q: Queue, quotas: Quotas, ss: seq<Statement>, id: nat)
    requires WellFormed(q) && id in q.rows
    ensures var q' := Run(q, quotas, ss);
            && (id in q'.rows <==> !SomeRemoves(ss, id, q.rows[id]))
            && (id in q'.rows ==> SameMessage(q.rows[id], q'.rows[id]))
    decreases |ss|
  {
    if ss != [] {
      var q1 := Execute(q, quotas, ss[0]);
      StatementKeepsRow(q, quotas, ss[0], id);
      assert ss == [ss[0]] + ss[1..];
      hide Execute;
      if id in q1.rows {
        RowLivesUntilRemoved(q1, quotas, ss[1..], id);
        forall s | s in ss ensures Removes(s, id, q.rows[id]) <==> Removes(s, id, q1.rows[id]) {
        }
        assert SomeRemoves(ss, id, q.rows[id]) <==> SomeRemoves(ss[1..], id, q1.rows[id]) by {
          if s :| s in ss && Removes(s, id, q.rows[id]) {
            assert s in ss[1..] && Removes(s, id, q1.rows[id]);
          }
        }
      } else {
        NothingIsResurrected(q1, quotas, ss[1..], id);
      }
    }
  }

  /** Main result: an id once used and now gone never comes back, whatever late claims, updates or
      acknowledgements still name it. */
  lemma {:induction false} NothingIsResurrected(q: Queue, quotas: Quotas, ss: seq<Statement>, id: nat)
    requires WellFormed(q) && id < q.nextId && id !in q.rows
    ensures id !in Run(q, quotas, ss).rows
    decreases |ss|
  {
    if ss != [] {
      StatementKeepsRow(q, quotas, ss[0], id);
      hide Execute;
      NothingIsResurrected(Execute(q, quotas, ss[0]), quotas, ss[1..], id);
    }
  }

  /** What a recipient can count on: until its device acknowledges it or it expires, an accepted
      message is in every poll of that device, with its payload. */
  lemma AcceptedMessageIsPolled(q: Queue, quotas: Quotas, ss: seq<Statement>, id: nat, now: int, ids: seq<nat>)
    requires WellFormed(q) && id in q.rows && q.rows[id].expiry > now
    requires AcknowledgeStmt(q.rows[id].device, id) !in ss
    requires forall s :: s in ss && s.CleanupStmt? ==> s.now <= now
    requires IsPoll(Run(q, quotas, ss), q.rows[id].device, now, ids)
    ensures id in ids && Run(q, quotas, ss).rows[id].payload == q.rows[id].payload
  {
    RowLivesUntilRemoved(q, quotas, ss, id);
  }
}
