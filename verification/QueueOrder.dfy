/** Sequence numbers. An envelope send reads the last sequence of a mailbox and inserts in a second
    statement; a fan-out computes its own inside one. Both keep a mailbox in the order of its ids as
    long as no other insert for the device comes between the read and the insert of a send. */
module QueueOrder {
  import opened Basics
  import opened DeliveryQueue
  import opened QueueRuns

  predicate InOrder(q: Queue) {
    forall i, j ::
      i in q.rows && j in q.rows && i < j && q.rows[i].device == q.rows[j].device ==>
        q.rows[i].sequence < q.rows[j].sequence
  }

  /** The same for one mailbox. */
  ghost predicate MailboxInOrder(q: Queue, device: Name) {
    forall i, j :: Owns(q.rows, device, i) && Owns(q.rows, device, j) && i < j ==> q.rows[i].sequence < q.rows[j].sequence
  }

  lemma InOrderByMailbox(q: Queue)
    ensures InOrder(q) <==> forall d :: MailboxInOrder(q, d)
  {
    if forall d :: MailboxInOrder(q, d) {
      forall i, j | i in q.rows && j in q.rows && i < j && q.rows[i].device == q.rows[j].device
        ensures q.rows[i].sequence < q.rows[j].sequence
      {
        assert MailboxInOrder(q, q.rows[i].device);
        assert Owns(q.rows, q.rows[i].device, i) && Owns(q.rows, q.rows[i].device, j);
      }
    }
  }

  /** `s` is beyond every sequence of the mailbox. */
  ghost predicate Beyond(q: Queue, device: Name, s: int) {
    forall id :: Owns(q.rows, device, id) ==> q.rows[id].sequence < s
  }

  lemma {:induction false} GreatestIsGreatest(rows: map<nat, Row>, device: Name, n: nat)
    ensures var g := GreatestSequenceBelow(rows, device, n);
            && (forall id: nat :: Owns(rows, device, id) && id < n ==> g.Some? && rows[id].sequence <= g.value)
            && (g.Some? ==> exists id: nat :: Owns(rows, device, id) && id < n && rows[id].sequence == g.value)
  {
    if n > 0 {
      GreatestIsGreatest(rows, device, n - 1);
      if Owns(rows, device, n - 1) {
        assert Owns(rows, device, n - 1) && n - 1 < n;
      }
    }
  }

  /** The sequence an envelope send asks for is free. */
  lemma NextSequenceIsBeyond(q: Queue, device: Name)
    requires WellFormed(q)
    ensures Beyond(q, device, LastSequence(q, device) + 1)
  {
    GreatestIsGreatest(q.rows, device, q.nextId);
  }

  lemma {:induction false} NewestIsGreatest(rows: map<nat, Row>, device: Name, n: nat)
    requires forall i, j :: Owns(rows, device, i) && Owns(rows, device, j) && i < j ==> rows[i].sequence < rows[j].sequence
    ensures NewestSequenceBelow(rows, device, n)
            == var g := GreatestSequenceBelow(rows, device, n); if g.Some? then g.value else 0
  {
    if n > 0 {
      NewestIsGreatest(rows, device, n - 1);
      GreatestIsGreatest(rows, device, n - 1);
    }
  }

  /** In a mailbox that is in order the two formulas for the next sequence agree. */
  lemma NextSequencesAgree(q: Queue, device: Name)
    requires InOrder(q)
    ensures NewestSequence(q, device) + 1 == LastSequence(q, device) + 1
  {
    NewestIsGreatest(q.rows, device, q.nextId);
  }

  /** Exactly when an insert keeps a table in order. */
  lemma InsertKeepsOrderIff(q: Queue, row: Row)
    requires WellFormed(q) && InOrder(q)
    ensures InOrder(Insert(q, row)) <==> Beyond(q, row.device, row.sequence)
  {
    var q' := Insert(q, row);
    assert forall id :: id in q.rows ==> q'.rows[id] == q.rows[id] && id < q.nextId;
    if InOrder(q') {
      forall id | Owns(q.rows, row.device, id) ensures q.rows[id].sequence < row.sequence {
        assert q'.rows[q.nextId] == row;
      }
    }
  }

  // ----- Sends as two statements -----

  /** A send that has read the last sequence of `device` and will insert with `sequence`. */
  datatype PendingSend = PendingSend(device: Name, sequence: int)

  datatype Mail = Mail(queue: Queue, pending: map<nat, PendingSend>)

  datatype MailStep =
    | ReadSequence(caller: nat, device: Name)
    | SendInsert(sender: nat, envelope: Envelope, at: int, ttl: int)
    | Other(statement: Statement)

  /** The devices that receive a row from a step. */
  predicate AddsRowFor(m: Mail, quotas: Quotas, step: MailStep, device: Name) {
    match step
    case ReadSequence(_, _) => false
    case SendInsert(c, e, at, ttl) =>
      e.recipient == device && c in m.pending && InsertEnvelope(m.queue, quotas, e, at, ttl, m.pending[c].sequence).1
    case Other(s) => s.FanOutStmt? && device in s.devices && HasRoom(m.queue, quotas, device, |s.payload|)
  }

  /** The runs considered: a send inserts with the sequence it read, and only if no other row for its
      device was added since; every other statement is free. */
  predicate Allowed(m: Mail, step: MailStep) {
    match step
    case ReadSequence(c, _) => true
    case SendInsert(c, e, _, _) => c in m.pending && m.pending[c].device == e.recipient
    case Other(s) => !s.InsertEnvelopeStmt? && Issued(s)
  }

  function Take(m: Mail, quotas: Quotas, step: MailStep): Mail
    requires Allowed(m, step)
  {
    var kept := map c | c in m.pending && !AddsRowFor(m, quotas, step, m.pending[c].device) :: m.pending[c];
    match step
    case ReadSequence(c, d) => Mail(m.queue, m.pending[c := PendingSend(d, LastSequence(m.queue, d) + 1)])
    case SendInsert(c, e, at, ttl) =>
      Mail(InsertEnvelope(m.queue, quotas, e, at, ttl, m.pending[c].sequence).0, kept - {c})
    case Other(s) => Mail(Execute(m.queue, quotas, s), kept)
  }

  ghost predicate Ordered(m: Mail) {
    && WellFormed(m.queue)
    && InOrder(m.queue)
    && forall c :: c in m.pending ==> Beyond(m.queue, m.pending[c].device, m.pending[c].sequence)
  }

  /** A fan-out in turn keeps order, and leaves sends to the devices it skipped undisturbed. */
  lemma {:induction false} FanOutLoopKeepsOrder(q: Queue, quotas: Quotas, devices: seq<Name>, payload: Bytes, expiry: int)
    requires WellFormed(q) && InOrder(q) && Distinct(devices)
    ensures var q' := FanOutLoop(q, quotas, devices, payload, expiry);
            && WellFormed(q') && InOrder(q')
            && forall d, s :: Beyond(q, d, s) && (d in devices ==> !HasRoom(q, quotas, d, |payload|)) ==> Beyond(q', d, s)
    decreases |devices|
  {
    if devices != [] {
      var d0, q1 := devices[0], FanOutOne(q, quotas, devices[0], payload, expiry);
      assert devices == [d0] + devices[1..];
      if HasRoom(q, quotas, d0, |payload|) {
        NextSequencesAgree(q, d0);
        NextSequenceIsBeyond(q, d0);
        InsertKeepsOrderIff(q, FanOutRow(q, d0, payload, expiry));
        forall d | d != d0 ensures HasRoom(q1, quotas, d, |payload|) <==> HasRoom(q, quotas, d, |payload|) {
          InsertTotals(q, FanOutRow(q, d0, payload, expiry), d);
        }
      }
      assert forall d :: d in devices[1..] ==> d != d0;
      forall d, s | Beyond(q, d, s) && (d in devices ==> !HasRoom(q, quotas, d, |payload|)) ensures Beyond(q1, d, s) {
      }
      FanOutLoopKeepsOrder(q1, quotas, devices[1..], payload, expiry);
    }
  }

  lemma SendKeepsOrder(m: Mail, quotas: Quotas, step: MailStep)
    requires step.SendInsert? && Ordered(m) && Allowed(m, step)
    ensures Ordered(Take(m, quotas, step))
  {
  }

  /** Statements other than inserts only remove rows or touch their retry state. */
  lemma ShrinkingKeepsOrder(q: Queue, q': Queue, device: Name, s: int)
    requires WellFormed(q) && InOrder(q) && q'.nextId == q.nextId
    requires forall id :: id in q'.rows ==> id in q.rows && SameMessage(q.rows[id], q'.rows[id])
    ensures WellFormed(q') && InOrder(q')
    ensures Beyond(q, device, s) ==> Beyond(q', device, s)
  {
  }

  lemma FanOutKeepsOrder(m: Mail, quotas: Quotas, s: Statement)
    requires s.FanOutStmt? && Ordered(m) && Allowed(m, Other(s))
    ensures Ordered(Take(m, quotas, Other(s)))
  {
    FanOutIsALoop(m.queue, quotas, s.devices, s.payload, s.expiry);
    FanOutLoopKeepsOrder(m.queue, quotas, s.devices, s.payload, s.expiry);
    hide InOrder, HasRoom, FanOut, FanOutLoop;
  }

  lemma OtherKeepsOrder(m: Mail, quotas: Quotas, s: Statement)
    requires !s.FanOutStmt? && Ordered(m) && Allowed(m, Other(s))
    ensures Ordered(Take(m, quotas, Other(s)))
  {
    var q' := Execute(m.queue, quotas, s);
    assert q'.nextId == m.queue.nextId && forall id :: id in q'.rows ==> id in m.queue.rows && SameMessage(m.queue.rows[id], q'.rows[id]);
    hide Execute, InOrder, Beyond, WellFormed;
    ShrinkingKeepsOrder(m.queue, q', "", 0);
    forall c | c in m.pending ensures Beyond(q', m.pending[c].device, m.pending[c].sequence) {
      ShrinkingKeepsOrder(m.queue, q', m.pending[c].device, m.pending[c].sequence);
    }
  }

  lemma StepKeepsOrder(m: Mail, quotas: Quotas, step: MailStep)
    requires Ordered(m) && Allowed(m, step)
    ensures Ordered(Take(m, quotas, step))
  {
    match step
    case ReadSequence(c, d) =>
      NextSequenceIsBeyond(m.queue, d);
      hide InOrder, Beyond, LastSequence, AddsRowFor;
    case SendInsert(_, _, _, _) =>
      SendKeepsOrder(m, quotas, step);
    case Other(s) =>
      hide Ordered, Take;
      if s.FanOutStmt? { FanOutKeepsOrder(m, quotas, s); } else { OtherKeepsOrder(m, quotas, s); }
  }

  ghost predicate AllowedRun(m: Mail, quotas: Quotas, steps: seq<MailStep>)
    decreases |steps|
  {
    steps == [] || (Allowed(m, steps[0]) && AllowedRun(Take(m, quotas, steps[0]), quotas, steps[1..]))
  }

  ghost function TakeAll(m: Mail, quotas: Quotas, steps: seq<MailStep>): Mail
    requires AllowedRun(m, quotas, steps)
    decreases |steps|
  {
    if steps == [] then m else TakeAll(Take(m, quotas, steps[0]), quotas, steps[1..])
  }

  /** Main result: in such runs, with acknowledgements and cleanups anywhere, every mailbox is in the
      order of its ids. */
  lemma {:induction false} RunKeepsOrder(m: Mail, quotas: Quotas, steps: seq<MailStep>)
    requires Ordered(m) && AllowedRun(m, quotas, steps)
    ensures Ordered(TakeAll(m, quotas, steps))
    decreases |steps|
  {
    if steps != [] {
      StepKeepsOrder(m, quotas, steps[0]);
      hide Ordered, Take;
      RunKeepsOrder(Take(m, quotas, steps[0]), quotas, steps[1..]);
    }
  }

  /** Polling by sequence is then first in, first out. */
  lemma PollIsFifo(q: Queue, device: Name, now: int, ids: seq<nat>)
    requires MailboxInOrder(q, device) && IsPoll(q, device, now, ids)
    ensures forall i, j :: 0 <= i < j < |ids| ==> ids[i] < ids[j]
  {
    forall i, j | 0 <= i < j < |ids| ensures ids[i] < ids[j] {
      assert ids[i] in ids && ids[j] in ids;
      assert Pollable(q, device, now, ids[i]) && Pollable(q, device, now, ids[j]);
    }
  }

  /** The limit of the promise: two sends that both read before either inserts are both stored exactly when
      there is room for the two and their message ids are free and different; they then get the same
      sequence number, and order is lost. */
  lemma RacingSendsCollide(q: Queue, quotas: Quotas, a: Envelope, b: Envelope, at: int, ttl: int)
    requires WellFormed(q) && a.recipient == b.recipient
    ensures var s := LastSequence(q, a.recipient) + 1;
            var (q1, storedA) := InsertEnvelope(q, quotas, a, at, ttl, s);
            var (q2, storedB) := InsertEnvelope(q1, quotas, b, at, ttl, s);
            && (storedA && storedB <==>
                  && MessageCount(q, a.recipient) + 1 < quotas.maxMessages
                  && MailboxBytes(q, a.recipient) + |a.payload| + |b.payload| <= quotas.maxBytes
                  && a.messageId != b.messageId && !MessageIsQueued(q, a.messageId) && !MessageIsQueued(q, b.messageId))
            && (storedA && storedB ==>
                  q2.rows[q.nextId].sequence == q2.rows[q1.nextId].sequence && q.nextId < q1.nextId && !InOrder(q2))
  {
    var rowA := EnvelopeRow(a, at + ttl, LastSequence(q, a.recipient) + 1, at);
    InsertTotals(q, rowA, b.recipient);
    InsertQueuesOneMessage(q, rowA, b.messageId);
    hide MessageCount, MailboxBytes, MessageIsQueued, LastSequence;
  }

  lemma InsertQueuesOneMessage(q: Queue, row: Row, messageId: Name)
    requires WellFormed(q)
    ensures MessageIsQueued(Insert(q, row), messageId) <==> MessageIsQueued(q, messageId) || row.messageId == Some(messageId)
  {
    var q' := Insert(q, row);
    assert q'.rows[q.nextId] == row && forall id :: id in q.rows ==> q'.rows[id] == q.rows[id];
  }

  /** Two such sends to an empty mailbox that holds two. */
  lemma RacingSendsExist(a: Envelope, b: Envelope)
    requires a == Envelope("m1", "sender", "device", 2, []) && b == Envelope("m2", "sender", "device", 2, [])
    ensures var quotas, s := Quotas(2, 0, 0), LastSequence(EMPTY_QUEUE, "device") + 1;
            var (q1, storedA) := InsertEnvelope(EMPTY_QUEUE, quotas, a, 0, 60, s);
            var (q2, storedB) := InsertEnvelope(q1, quotas, b, 0, 60, s);
            && InOrder(EMPTY_QUEUE) && storedA && storedB
            && q2.rows[1].sequence == q2.rows[2].sequence == 1 && !InOrder(q2)
  {
    assert CountBelow(map[], "device", 0) == 0 && BytesBelow(map[], "device", 0) == 0;
    assert GreatestSequenceBelow(map[], "device", 0).None?;
    assert !MessageIsQueued(EMPTY_QUEUE, "m1") && !MessageIsQueued(EMPTY_QUEUE, "m2");
    RacingSendsCollide(EMPTY_QUEUE, Quotas(2, 0, 0), a, b, 0, 60);
  }
}
