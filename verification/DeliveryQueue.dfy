/** The table `delivery_queue` and its statements, each one atomic step from table to table. */
module DeliveryQueue {
  import opened Basics

  datatype Row = Row(
    device: Name,
    messageId: Option<Name>,
    sender: Option<Name>,
    protocol: int,
    payload: Bytes,
    expiry: int,
    sequence: int,
    retryCount: int,
    nextRetry: int,
    ackDeadline: int)

  /** Rows by id. The id column is AUTOINCREMENT: `nextId` has never been used. */
  datatype Queue = Queue(rows: map<nat, Row>, nextId: nat)

  const EMPTY_QUEUE: Queue := Queue(map[], 1)

  datatype Quotas = Quotas(maxMessages: nat, maxBytes: nat, maxEnvelope: nat)

  datatype Envelope = Envelope(messageId: Name, sender: Name, recipient: Name, protocol: int, payload: Bytes)

  predicate WellFormed(q: Queue) {
    forall id :: id in q.rows ==> id < q.nextId
  }

  // ----- Aggregates over one mailbox, by increasing id -----

  predicate Owns(rows: map<nat, Row>, device: Name, id: nat) {
    id in rows && rows[id].device == device
  }

  function CountBelow(rows: map<nat, Row>, device: Name, n: nat): nat {
    if n == 0 then 0
    else CountBelow(rows, device, n - 1) + if Owns(rows, device, n - 1) then 1 else 0
  }

  function BytesBelow(rows: map<nat, Row>, device: Name, n: nat): nat {
    if n == 0 then 0
    else BytesBelow(rows, device, n - 1) + if Owns(rows, device, n - 1) then |rows[n - 1].payload| else 0
  }

  /** The sequence of the row with the greatest id, or zero. */
  function NewestSequenceBelow(rows: map<nat, Row>, device: Name, n: nat): int {
    if n == 0 then 0
    else if Owns(rows, device, n - 1) then rows[n - 1].sequence
    else NewestSequenceBelow(rows, device, n - 1)
  }

  function GreatestSequenceBelow(rows: map<nat, Row>, device: Name, n: nat): Option<int> {
    if n == 0 then None
    else
      var rest := GreatestSequenceBelow(rows, device, n - 1);
      if !Owns(rows, device, n - 1) then rest
      else if rest.Some? && rest.value >= rows[n - 1].sequence then rest
      else Some(rows[n - 1].sequence)
  }

  function MessageCount(q: Queue, device: Name): nat {
    CountBelow(q.rows, device, q.nextId)
  }

  function MailboxBytes(q: Queue, device: Name): nat {
    BytesBelow(q.rows, device, q.nextId)
  }

  /** The last sequence as a fan-out sees it: that of the newest row. */
  function NewestSequence(q: Queue, device: Name): int {
    NewestSequenceBelow(q.rows, device, q.nextId)
  }

  /** The last sequence as an envelope send reads it: the greatest one. */
  function LastSequence(q: Queue, device: Name): int {
    var greatest := GreatestSequenceBelow(q.rows, device, q.nextId);
    if greatest.Some? then greatest.value else 0
  }

  predicate HasRoom(q: Queue, quotas: Quotas, device: Name, size: nat) {
    MessageCount(q, device) < quotas.maxMessages && MailboxBytes(q, device) + size <= quotas.maxBytes
  }

  // ----- Statements -----

  function Insert(q: Queue, row: Row): Queue {
    Queue(q.rows[q.nextId := row], q.nextId + 1)
  }

  predicate MessageIsQueued(q: Queue, messageId: Name) {
    exists id :: id in q.rows && q.rows[id].messageId == Some(messageId)
  }

  function EnvelopeRow(e: Envelope, expiry: int, sequence: int, now: int): Row {
    Row(e.recipient, Some(e.messageId), Some(e.sender), e.protocol, e.payload, expiry, sequence, 0, now, 0)
  }

  /** INSERT ... SELECT ... WHERE quotas ON CONFLICT(message_id) DO NOTHING, and whether a row was added. */
  function InsertEnvelope(q: Queue, quotas: Quotas, e: Envelope, now: int, ttl: int, sequence: int): (Queue, bool) {
    if HasRoom(q, quotas, e.recipient, |e.payload|) && !MessageIsQueued(q, e.messageId)
    then (Insert(q, EnvelopeRow(e, now + ttl, sequence, now)), true)
    else (q, false)
  }

  function FanOutRow(q: Queue, device: Name, payload: Bytes, expiry: int): Row {
    Row(device, None, None, 1, payload, expiry, NewestSequence(q, device) + 1, 0, 0, 0)
  }

  /** The rows of the UNION ALL: every arm reads the table as it was before the statement. */
  function FanOutRows(q: Queue, quotas: Quotas, devices: seq<Name>, payload: Bytes, expiry: int): (rows: seq<Row>) {
    if devices == [] then []
    else
      (if HasRoom(q, quotas, devices[0], |payload|) then [FanOutRow(q, devices[0], payload, expiry)] else [])
      + FanOutRows(q, quotas, devices[1..], payload, expiry)
  }

  function InsertAll(q: Queue, rows: seq<Row>): Queue
    decreases |rows|
  {
    if rows == [] then q else InsertAll(Insert(q, rows[0]), rows[1..])
  }

  function FanOut(q: Queue, quotas: Quotas, devices: seq<Name>, payload: Bytes, expiry: int): Queue {
    InsertAll(q, FanOutRows(q, quotas, devices, payload, expiry))
  }

  /** UPDATE ... SET next_retry WHERE id AND next_retry <= current, and whether the row was there. */
  function ClaimItem(q: Queue, id: nat, newNextRetry: int, current: int): (Queue, bool) {
    if id in q.rows && q.rows[id].nextRetry <= current
    then (q.(rows := q.rows[id := q.rows[id].(nextRetry := newNextRetry)]), true)
    else (q, false)
  }

  function UpdateState(q: Queue, id: nat, retryCount: int, nextRetry: int, ackDeadline: int): Queue {
    if id in q.rows
    then q.(rows := q.rows[id := q.rows[id].(retryCount := retryCount, nextRetry := nextRetry, ackDeadline := ackDeadline)])
    else q
  }

  function Acknowledge(q: Queue, device: Name, id: nat): Queue {
    if Owns(q.rows, device, id) then q.(rows := q.rows - {id}) else q
  }

  function Cleanup(q: Queue, now: int): Queue {
    q.(rows := map id | id in q.rows && q.rows[id].expiry > now :: q.rows[id])
  }

  /** The ids a poll of `device` may return at `now`. */
  predicate Pollable(q: Queue, device: Name, now: int, id: nat) {
    Owns(q.rows, device, id) && q.rows[id].expiry > now
  }

  /** A poll returns exactly the pollable rows, each once, in order of sequence. */
  ghost predicate IsPoll(q: Queue, device: Name, now: int, ids: seq<nat>) {
    && (forall id :: id in ids <==> Pollable(q, device, now, id))
    && (forall i, j :: 0 <= i < j < |ids| ==> ids[i] != ids[j])
    && (forall i, j :: 0 <= i < j < |ids| && ids[i] in q.rows && ids[j] in q.rows ==>
          q.rows[ids[i]].sequence <= q.rows[ids[j]].sequence)
  }

  // ----- Runs of statements, in any order, by anyone -----

  datatype Statement =
    | InsertEnvelopeStmt(envelope: Envelope, at: int, ttl: int, sequence: int)
    | FanOutStmt(devices: seq<Name>, payload: Bytes, expiry: int)
    | ClaimStmt(claimed: nat, newNextRetry: int, current: int)
    | UpdateStmt(updated: nat, retryCount: int, nextRetry: int, ackDeadline: int)
    | AcknowledgeStmt(device: Name, acked: nat)
    | CleanupStmt(now: int)

  function Execute(q: Queue, quotas: Quotas, s: Statement): Queue {
    match s
    case InsertEnvelopeStmt(e, at, ttl, sequence) => InsertEnvelope(q, quotas, e, at, ttl, sequence).0
    case FanOutStmt(devices, payload, expiry) => FanOut(q, quotas, devices, payload, expiry)
    case ClaimStmt(id, newNextRetry, current) => ClaimItem(q, id, newNextRetry, current).0
    case UpdateStmt(id, retryCount, nextRetry, ackDeadline) => UpdateState(q, id, retryCount, nextRetry, ackDeadline)
    case AcknowledgeStmt(device, id) => Acknowledge(q, device, id)
    case CleanupStmt(now) => Cleanup(q, now)
  }

  function Run(q: Queue, quotas: Quotas, ss: seq<Statement>): Queue
    decreases |ss|
  {
    if ss == [] then q else Run(Execute(q, quotas, ss[0]), quotas, ss[1..])
  }

  lemma {:induction false} RunAppend(q: Queue, quotas: Quotas, a: seq<Statement>, b: seq<Statement>)
    ensures Run(q, quotas, a + b) == Run(Run(q, quotas, a), quotas, b)
    decreases |a|
  {
    if a == [] {
      assert a + b == b;
    } else {
      assert (a + b)[0] == a[0] && (a + b)[1..] == a[1..] + b;
      RunAppend(Execute(q, quotas, a[0]), quotas, a[1..], b);
    }
  }
}
