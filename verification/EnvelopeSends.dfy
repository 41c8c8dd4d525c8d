/** An envelope send is an insert that may do nothing, then a look at the row that was in the way.
    Other statements may run in between. */
module EnvelopeSends {
  import opened Basics
  import opened DeliveryQueue
  import opened QueueRuns

  datatype EnqueueError = EnvelopeTooLarge | QuotaExceeded | DuplicateConflict

  function FindBelow(rows: map<nat, Row>, messageId: Name, n: nat): Option<Row> {
    if n == 0 then None
    else if n - 1 in rows && rows[n - 1].messageId == Some(messageId) then Some(rows[n - 1])
    else FindBelow(rows, messageId, n - 1)
  }

  /** SELECT ... WHERE message_id = ? */
  function FindMessage(q: Queue, messageId: Name): Option<Row> {
    FindBelow(q.rows, messageId, q.nextId)
  }

  lemma {:induction false} FindBelowIsExact(rows: map<nat, Row>, messageId: Name, n: nat)
    ensures match FindBelow(rows, messageId, n)
            case None => forall id: nat :: id < n && id in rows ==> rows[id].messageId != Some(messageId)
            case Some(row) => exists id: nat :: id < n && id in rows && rows[id] == row && row.messageId == Some(messageId)
  {
    if n > 0 && !(n - 1 in rows && rows[n - 1].messageId == Some(messageId)) {
      FindBelowIsExact(rows, messageId, n - 1);
    }
  }

  /** With unique message ids the lookup finds the queued row of that id, if there is one. */
  lemma FindMessageIsExact(q: Queue, messageId: Name)
    requires WellFormed(q) && UniqueMessageIds(q)
    ensures FindMessage(q, messageId).Some? <==> MessageIsQueued(q, messageId)
    ensures forall id :: id in q.rows && q.rows[id].messageId == Some(messageId) ==> FindMessage(q, messageId) == Some(q.rows[id])
  {
    FindBelowIsExact(q.rows, messageId, q.nextId);
  }

  /** The row carries the same message as the envelope; an absent sender reads as the empty name. */
  predicate Compatible(row: Row, e: Envelope) {
    (if row.sender.Some? then row.sender.value else "") == e.sender && row.device == e.recipient && row.payload == e.payload
  }

  function Verdict(inserted: bool, seen: Option<Row>, e: Envelope): Result<(), EnqueueError> {
    if inserted then Ok(())
    else match seen
      case None => Err(QuotaExceeded)
      case Some(row) => if Compatible(row, e) then Ok(()) else Err(DuplicateConflict)
  }

  /** The table after the send, and its verdict; `others` run between its two statements. */
  function Enqueue(q: Queue, quotas: Quotas, e: Envelope, now: int, ttl: int, sequence: int, others: seq<Statement>)
    : (Queue, Result<(), EnqueueError>)
  {
    if |e.payload| > quotas.maxEnvelope then (q, Err(EnvelopeTooLarge))
    else
      var (q1, inserted) := InsertEnvelope(q, quotas, e, now, ttl, sequence);
      var q2 := Run(q1, quotas, others);
      (q2, Verdict(inserted, FindMessage(q2, e.messageId), e))
  }

  ghost predicate CarriedBy(q: Queue, e: Envelope) {
    exists id :: id in q.rows && q.rows[id].messageId == Some(e.messageId) && Compatible(q.rows[id], e)
  }

  /** Main result: whatever runs in between, success means that the message was stored by this call or
      seen queued with the same sender, recipient and payload; a conflict means that another message was
      seen under its id; and a refusal means that there was no room or that the id was taken at the
      insert and free again at the look. */
  lemma VerdictIsHonest(q: Queue, quotas: Quotas, e: Envelope, now: int, ttl: int, sequence: int, others: seq<Statement>)
    requires Invariant(q, quotas) && AllIssued(others) && |e.payload| <= quotas.maxEnvelope
    ensures var (q1, inserted) := InsertEnvelope(q, quotas, e, now, ttl, sequence);
            var (q2, r) := Enqueue(q, quotas, e, now, ttl, sequence, others);
            && (r == Ok(()) <==> inserted || CarriedBy(q2, e))
            && (r == Err(DuplicateConflict) <==> !inserted && MessageIsQueued(q2, e.messageId) && !CarriedBy(q2, e))
            && (r == Err(QuotaExceeded) <==> !inserted && !MessageIsQueued(q2, e.messageId))
            && (r == Err(QuotaExceeded) ==>
                  MessageIsQueued(q, e.messageId) || !HasRoom(q, quotas, e.recipient, |e.payload|))
  {
    var (q1, inserted) := InsertEnvelope(q, quotas, e, now, ttl, sequence);
    StatementKeepsInvariant(q, quotas, InsertEnvelopeStmt(e, now, ttl, sequence));
    RunKeepsInvariant(q1, quotas, others);
    var q2 := Run(q1, quotas, others);
    hide Run, InsertEnvelope, QuotasHold;
    FindMessageIsExact(q2, e.messageId);
    FindBelowIsExact(q2.rows, e.messageId, q2.nextId);
  }

  /** With nothing in between, the verdict is decided by the table the call found, and a refused or
      repeated send leaves that table as it was. */
  lemma UndisturbedSend(q: Queue, quotas: Quotas, e: Envelope, now: int, ttl: int, sequence: int)
    requires Invariant(q, quotas) && |e.payload| <= quotas.maxEnvelope
    ensures var (q', r) := Enqueue(q, quotas, e, now, ttl, sequence, []);
            && (MessageIsQueued(q, e.messageId) ==> q' == q && r == if CarriedBy(q, e) then Ok(()) else Err(DuplicateConflict))
            && (!MessageIsQueued(q, e.messageId) && !HasRoom(q, quotas, e.recipient, |e.payload|) ==>
                  q' == q && r == Err(QuotaExceeded))
            && (!MessageIsQueued(q, e.messageId) && HasRoom(q, quotas, e.recipient, |e.payload|) ==>
                  q' == Insert(q, EnvelopeRow(e, now + ttl, sequence, now)) && r == Ok(()))
  {
    VerdictIsHonest(q, quotas, e, now, ttl, sequence, []);
  }

  /** Main result: repeating an accepted envelope while its row is queued, after any run, is accepted
      again and changes nothing, even if the mailbox has filled up. */
  lemma RetryChangesNothing(q: Queue, quotas: Quotas, e: Envelope, now: int, ttl: int, sequence: int,
                            ss: seq<Statement>, later: int, ttl': int, sequence': int)
    requires Invariant(q, quotas) && AllIssued(ss) && |e.payload| <= quotas.maxEnvelope
    requires InsertEnvelope(q, quotas, e, now, ttl, sequence).1
    requires !SomeRemoves(ss, q.nextId, EnvelopeRow(e, now + ttl, sequence, now))
    ensures var q1 := Run(InsertEnvelope(q, quotas, e, now, ttl, sequence).0, quotas, ss);
            Enqueue(q1, quotas, e, later, ttl', sequence', []) == (q1, Ok(()))
  {
    var q0, id := InsertEnvelope(q, quotas, e, now, ttl, sequence).0, q.nextId;
    var q1 := Run(q0, quotas, ss);
    StatementKeepsInvariant(q, quotas, InsertEnvelopeStmt(e, now, ttl, sequence));
    RowLivesUntilRemoved(q0, quotas, ss, id);
    RunKeepsInvariant(q0, quotas, ss);
    hide Run;
    assert SameMessage(EnvelopeRow(e, now + ttl, sequence, now), q1.rows[id]);
    assert CarriedBy(q1, e);
    UndisturbedSend(q1, quotas, e, later, ttl', sequence');
  }
}
