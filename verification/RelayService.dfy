/** Sending: who may send to whom, and the statements a send is made of. Friends and devices are looked up
    in statements of their own, so each lookup may see a different directory: `at(k)` is the one the
    `k`-th lookup of a call sees. */
module RelayService {
  import opened Basics
  import Friends = FriendshipStore
  import opened DeliveryQueue
  import opened QueueRuns
  import opened QueueOrder
  import opened EnvelopeSends
  import opened DeliveryQueueRepositories

  datatype Directory = Directory(users: map<Name, int>, owners: map<Name, int>, active: set<Name>, friendships: set<Friends.Pair>)

  type Lookups = nat -> Directory

  datatype SendError =
    | RecipientRequired
    | RecipientNotFound
    | UnauthorizedSender
    | RecipientHasNoDevices
    | IncompleteEnvelope
    | RecipientDeviceNotFound
    | NotEnqueued(cause: EnqueueError)

  /** A user may send to himself and to his friends. */
  predicate MaySend(sender: int, recipient: int, dir: Directory) {
    sender == recipient || Friends.PairOf(sender, recipient) in dir.friendships
  }

  predicate HasActiveDevice(dir: Directory, user: int, device: Name) {
    device in dir.active && device in dir.owners && dir.owners[device] == user
  }

  /** The user's active devices. */
  function Reachable(dir: Directory, user: int): set<Name> {
    set d | d in dir.active && HasActiveDevice(dir, user, d)
  }

  /** The user's active devices, each once, in some order. */
  ghost predicate IsDeviceList(dir: Directory, user: int, devices: seq<Name>) {
    Distinct(devices) && forall d :: d in devices <==> d in Reachable(dir, user)
  }

  // ----- Envelopes -----

  predicate Complete(e: Envelope) {
    e.messageId != "" && e.sender != "" && e.recipient != ""
  }

  /** Is the sender entitled to write to the mailbox of the device, as the lookups see it? */
  predicate Entitled(sender: int, e: Envelope, at: Lookups) {
    && e.recipient in at(0).owners
    && MaySend(sender, at(0).owners[e.recipient], at(1))
    && HasActiveDevice(at(2), at(0).owners[e.recipient], e.recipient)
  }

  /** `q` is the table when the last sequence is read; `between` runs before the insert and `others`
      before the look at the row in the way. */
  function SubmitEnvelope(q: Queue, quotas: Quotas, at: Lookups, sender: int, e: Envelope, now: int, ttl: int,
                        between: seq<Statement>, others: seq<Statement>): (Queue, Result<(), SendError>)
  {
    if !Complete(e) then (q, Err(IncompleteEnvelope))
    else if e.recipient !in at(0).owners then (q, Err(RecipientDeviceNotFound))
    else if !MaySend(sender, at(0).owners[e.recipient], at(1)) then (q, Err(UnauthorizedSender))
    else if !HasActiveDevice(at(2), at(0).owners[e.recipient], e.recipient) then (q, Err(RecipientDeviceNotFound))
    else
      var sequence := LastSequence(q, e.recipient) + 1;
      var (q', r) := Enqueue(Run(q, quotas, between), quotas, e, now, ttl, sequence, others);
      (q', if r.Ok? then Ok(()) else Err(NotEnqueued(r.error)))
  }

  /** An accepted envelope was complete, its sender entitled, and it was stored by the call or
      seen queued; a refused one leaves exactly what others have done. */
  lemma SendEnvelopeIsSound(q: Queue, quotas: Quotas, at: Lookups, sender: int, e: Envelope, now: int, ttl: int,
                            between: seq<Statement>, others: seq<Statement>)
    requires Invariant(q, quotas) && AllIssued(between) && AllIssued(others)
    ensures var (q', r) := SubmitEnvelope(q, quotas, at, sender, e, now, ttl, between, others);
            && (r == Ok(()) ==> Complete(e) && Entitled(sender, e, at) && |e.payload| <= quotas.maxEnvelope)
            && (r == Ok(()) ==> CarriedBy(q', e) || Stored(Run(q, quotas, between), quotas, e, now, ttl, LastSequence(q, e.recipient) + 1))
            && (r.Err? ==> q' == q || q' == Run(q, quotas, between) || q' == Run(q, quotas, between + others))
  {
    var q1 := Run(q, quotas, between);
    RunKeepsInvariant(q, quotas, between);
    RunAppend(q, quotas, between, others);
    if |e.payload| <= quotas.maxEnvelope {
      VerdictIsHonest(q1, quotas, e, now, ttl, LastSequence(q, e.recipient) + 1, others);
    }
    hide Run, Invariant, HasRoom, LastSequence, CarriedBy, FindMessage;
  }

  predicate Stored(q: Queue, quotas: Quotas, e: Envelope, now: int, ttl: int, sequence: int) {
    InsertEnvelope(q, quotas, e, now, ttl, sequence).1
  }

  /** Statements that add no row. */
  predicate Quiet(ss: seq<Statement>) {
    forall s <- ss :: !s.InsertEnvelopeStmt? && !s.FanOutStmt?
  }

  lemma {:induction false} QuietKeepsOrder(q: Queue, quotas: Quotas, ss: seq<Statement>, device: Name, s: int)
    requires WellFormed(q) && InOrder(q) && Beyond(q, device, s) && Quiet(ss)
    ensures var q' := Run(q, quotas, ss);
            WellFormed(q') && InOrder(q') && Beyond(q', device, s)
    decreases |ss|
  {
    if ss != [] {
      var q1 := Execute(q, quotas, ss[0]);
      ShrinkingKeepsOrder(q, q1, device, s);
      hide Execute, InOrder, Beyond, WellFormed;
      QuietKeepsOrder(q1, quotas, ss[1..], device, s);
    }
  }

  /** Does the statement add a row to the mailbox of `device`? */
  predicate AddsRow(q: Queue, quotas: Quotas, s: Statement, device: Name) {
    match s
    case InsertEnvelopeStmt(e, at, ttl, sequence) => e.recipient == device && InsertEnvelope(q, quotas, e, at, ttl, sequence).1
    case FanOutStmt(devices, payload, _) => device in devices && HasRoom(q, quotas, device, |payload|)
    case _ => false
  }

  /** No statement of the run adds a row to the mailbox. */
  ghost predicate NoRowFor(q: Queue, quotas: Quotas, ss: seq<Statement>, device: Name)
    decreases |ss|
  {
    ss == [] || (!AddsRow(q, quotas, ss[0], device) && NoRowFor(Execute(q, quotas, ss[0]), quotas, ss[1..], device))
  }

  lemma {:induction false} FanOutRowsHaveRoom(q: Queue, quotas: Quotas, devices: seq<Name>, payload: Bytes, expiry: int)
    ensures forall r <- FanOutRows(q, quotas, devices, payload, expiry) :: r.device in devices && HasRoom(q, quotas, r.device, |payload|)
  {
    if devices != [] {
      FanOutRowsHaveRoom(q, quotas, devices[1..], payload, expiry);
      hide HasRoom;
    }
  }

  /** The rows of `device` in `after` are rows of `device` in `before`, with the same sequences. */
  ghost predicate MailboxShrinks(before: Queue, after: Queue, device: Name) {
    forall id :: Owns(after.rows, device, id) ==> Owns(before.rows, device, id) && after.rows[id].sequence == before.rows[id].sequence
  }

  lemma {:induction false} InsertAllElsewhere(q: Queue, rows: seq<Row>, device: Name)
    requires WellFormed(q) && forall r <- rows :: r.device != device
    ensures WellFormed(InsertAll(q, rows)) && MailboxShrinks(q, InsertAll(q, rows), device)
    decreases |rows|
  {
    if rows != [] {
      assert rows[0] in rows && forall r <- rows[1..] :: r in rows;
      InsertAllElsewhere(Insert(q, rows[0]), rows[1..], device);
    }
  }

  lemma StatementElsewhere(q: Queue, quotas: Quotas, s: Statement, device: Name)
    requires WellFormed(q) && !AddsRow(q, quotas, s, device)
    ensures WellFormed(Execute(q, quotas, s)) && MailboxShrinks(q, Execute(q, quotas, s), device)
  {
    if s.FanOutStmt? {
      FanOutRowsHaveRoom(q, quotas, s.devices, s.payload, s.expiry);
      InsertAllElsewhere(q, FanOutRows(q, quotas, s.devices, s.payload, s.expiry), device);
      hide FanOutRows, HasRoom;
    } else {
      hide HasRoom, MessageIsQueued;
    }
  }

  lemma {:induction false} RunElsewhere(q: Queue, quotas: Quotas, ss: seq<Statement>, device: Name)
    requires WellFormed(q) && NoRowFor(q, quotas, ss, device)
    ensures WellFormed(Run(q, quotas, ss)) && MailboxShrinks(q, Run(q, quotas, ss), device)
    decreases |ss|
  {
    if ss != [] {
      StatementElsewhere(q, quotas, ss[0], device);
      hide Execute, AddsRow, WellFormed;
      RunElsewhere(Execute(q, quotas, ss[0]), quotas, ss[1..], device);
    }
  }

  lemma InsertKeepsMailbox(q: Queue, row: Row, d: Name)
    requires WellFormed(q) && MailboxInOrder(q, d) && (d == row.device ==> Beyond(q, d, row.sequence))
    ensures MailboxInOrder(Insert(q, row), d)
  {
  }

  /** Main result: a send between whose read and insert no row is added to its mailbox keeps that mailbox in
      order, and its message comes last in every poll made then. The other mailboxes are in order if others
      left them so. */
  lemma UndisturbedSendComesLast(q: Queue, quotas: Quotas, at: Lookups, sender: int, e: Envelope, now: int, ttl: int,
                                 between: seq<Statement>, ids: seq<nat>)
    requires WellFormed(q) && MailboxInOrder(q, e.recipient) && NoRowFor(q, quotas, between, e.recipient) && ttl > 0
    requires Complete(e) && Entitled(sender, e, at) && |e.payload| <= quotas.maxEnvelope
    requires Stored(Run(q, quotas, between), quotas, e, now, ttl, LastSequence(q, e.recipient) + 1)
    requires IsPoll(SubmitEnvelope(q, quotas, at, sender, e, now, ttl, between, []).0, e.recipient, now, ids)
    ensures var q' := SubmitEnvelope(q, quotas, at, sender, e, now, ttl, between, []).0;
            && MailboxInOrder(q', e.recipient)
            && (forall d :: MailboxInOrder(Run(q, quotas, between), d) ==> MailboxInOrder(q', d))
    ensures ids != [] && ids[|ids| - 1] == Run(q, quotas, between).nextId
  {
    var q1 := Run(q, quotas, between);
    var row := EnvelopeRow(e, now + ttl, LastSequence(q, e.recipient) + 1, now);
    NextSequenceIsBeyond(q, e.recipient);
    RunElsewhere(q, quotas, between, e.recipient);
    assert MailboxInOrder(q1, e.recipient) && Beyond(q1, e.recipient, row.sequence);
    var q' := SubmitEnvelope(q, quotas, at, sender, e, now, ttl, between, []).0;
    assert q' == Insert(q1, row) by { StoredIsInserted(q, quotas, at, sender, e, now, ttl, between); }
    hide Run, SubmitEnvelope, MailboxInOrder, Beyond, LastSequence, HasRoom, IsPoll, NoRowFor, MailboxShrinks;
    forall d | MailboxInOrder(q1, d) ensures MailboxInOrder(q', d) {
      InsertKeepsMailbox(q1, row, d);
    }
    NewestComesLast(q1, row, now, ids);
  }

  /** In particular, a send that only quiet statements come between keeps a table in order. */
  lemma QuietSendKeepsOrder(q: Queue, quotas: Quotas, at: Lookups, sender: int, e: Envelope, now: int, ttl: int, between: seq<Statement>)
    requires WellFormed(q) && InOrder(q) && Quiet(between)
    requires Complete(e) && Entitled(sender, e, at) && |e.payload| <= quotas.maxEnvelope
    requires Stored(Run(q, quotas, between), quotas, e, now, ttl, LastSequence(q, e.recipient) + 1)
    ensures InOrder(SubmitEnvelope(q, quotas, at, sender, e, now, ttl, between, []).0)
  {
    var row := EnvelopeRow(e, now + ttl, LastSequence(q, e.recipient) + 1, now);
    NextSequenceIsBeyond(q, e.recipient);
    QuietKeepsOrder(q, quotas, between, e.recipient, row.sequence);
    InsertKeepsOrderIff(Run(q, quotas, between), row);
    StoredIsInserted(q, quotas, at, sender, e, now, ttl, between);
    hide Run, SubmitEnvelope, InOrder, Beyond, LastSequence, HasRoom;
  }

  lemma StoredIsInserted(q: Queue, quotas: Quotas, at: Lookups, sender: int, e: Envelope, now: int, ttl: int, between: seq<Statement>)
    requires Complete(e) && Entitled(sender, e, at) && |e.payload| <= quotas.maxEnvelope
    requires Stored(Run(q, quotas, between), quotas, e, now, ttl, LastSequence(q, e.recipient) + 1)
    ensures SubmitEnvelope(q, quotas, at, sender, e, now, ttl, between, []).0
            == Insert(Run(q, quotas, between), EnvelopeRow(e, now + ttl, LastSequence(q, e.recipient) + 1, now))
  {
  }

  lemma NewestComesLast(q: Queue, row: Row, now: int, ids: seq<nat>)
    requires MailboxInOrder(Insert(q, row), row.device) && row.expiry > now && WellFormed(q)
    requires IsPoll(Insert(q, row), row.device, now, ids)
    ensures ids != [] && ids[|ids| - 1] == q.nextId
  {
    var q' := Insert(q, row);
    PollIsFifo(q', row.device, now, ids);
    hide MailboxInOrder;
    assert Pollable(q', row.device, now, q.nextId);
    var k :| 0 <= k < |ids| && ids[k] == q.nextId;
    assert forall id <- ids :: Pollable(q', row.device, now, id) && id <= q.nextId;
    assert ids[|ids| - 1] in ids;
  }

  // ----- Fan-out to a user -----

  /** Main result: a fan-out adds exactly one row to the mailbox of each listed device that has room, with
      the message as payload, and nothing anywhere else. */
  lemma {:induction false} FanOutReachesExactly(q: Queue, quotas: Quotas, devices: seq<Name>, payload: Bytes, expiry: int, d: Name)
    requires WellFormed(q) && Distinct(devices)
    ensures var q' := FanOut(q, quotas, devices, payload, expiry);
            && (forall id :: id in q.rows ==> id in q'.rows && q'.rows[id] == q.rows[id])
            && (forall id :: id in q'.rows && id !in q.rows ==> q'.rows[id].payload == payload && q'.rows[id].device in devices)
            && MessageCount(q', d) == MessageCount(q, d) + if d in devices && HasRoom(q, quotas, d, |payload|) then 1 else 0
  {
    FanOutRowsAre(q, quotas, devices, payload, expiry, d);
    InsertAllAdds(q, FanOutRows(q, quotas, devices, payload, expiry), d);
    hide FanOutRows, MessageCount, HasRoom;
  }

  function RowsFor(rows: seq<Row>, d: Name): nat {
    if rows == [] then 0 else (if rows[0].device == d then 1 else 0) + RowsFor(rows[1..], d)
  }

  lemma {:induction false} FanOutRowsAre(q: Queue, quotas: Quotas, devices: seq<Name>, payload: Bytes, expiry: int, d: Name)
    requires Distinct(devices)
    ensures var rows := FanOutRows(q, quotas, devices, payload, expiry);
            && (forall r <- rows :: r.payload == payload && r.device in devices)
            && RowsFor(rows, d) == if d in devices && HasRoom(q, quotas, d, |payload|) then 1 else 0
  {
    if devices != [] {
      FanOutRowsAre(q, quotas, devices[1..], payload, expiry, d);
      hide HasRoom;
      var rest := FanOutRows(q, quotas, devices[1..], payload, expiry);
      var rows := FanOutRows(q, quotas, devices, payload, expiry);
      assert rows == rest || (rows[0].device == devices[0] && rows[0].payload == payload && rows[1..] == rest);
    }
  }

  lemma {:induction false} InsertAllAdds(q: Queue, rows: seq<Row>, d: Name)
    requires WellFormed(q)
    ensures var q' := InsertAll(q, rows);
            && (forall id :: id in q.rows ==> id in q'.rows && q'.rows[id] == q.rows[id])
            && (forall id :: id in q'.rows && id !in q.rows ==> q'.rows[id] in rows)
            && MessageCount(q', d) == MessageCount(q, d) + RowsFor(rows, d)
    decreases |rows|
  {
    if rows != [] {
      InsertTotals(q, rows[0], d);
      InsertAllAdds(Insert(q, rows[0]), rows[1..], d);
      hide MessageCount;
    }
  }

  // ----- The service -----

  class RelayManager {
    const deliveryRepository: DeliveryQueueRepository
    var messageTTL: int

    constructor (repository: DeliveryQueueRepository, ttl: int)
      ensures deliveryRepository == repository && messageTTL == ttl
    {
      deliveryRepository, messageTTL := repository, ttl;
    }

    method SetTTL(ttlSeconds: int)
      modifies this
      ensures messageTTL == ttlSeconds
    {
      messageTTL := ttlSeconds;
    }

    /** SELECT device_id ... WHERE user_id = ? AND status = 'ACTIVE' */
    method GetDevicesByUser(dir: Directory, user: int) returns (devices: seq<Name>)
      ensures IsDeviceList(dir, user, devices)
    {
      devices := [];
      var left := Reachable(dir, user);
      while left != {}
        invariant Distinct(devices)
        invariant forall d :: d in left || d in devices <==> d in Reachable(dir, user)
        invariant forall d :: d in left ==> d !in devices
        decreases left
      {
        var d :| d in left;
        devices := devices + [d];
        left := left - {d};
      }
    }

    method Send(sender: int, toUsername: Name, payload: Bytes, at: Lookups, now: int) returns (r: Result<(), SendError>)
      modifies deliveryRepository
      ensures r.Err? ==> deliveryRepository.Table() == old(deliveryRepository.Table())
      ensures r == Ok(()) ==>
                && toUsername in at(0).users
                && MaySend(sender, at(0).users[toUsername], at(1))
                && exists devices :: devices != [] && IsDeviceList(at(2), at(0).users[toUsername], devices)
                     && deliveryRepository.Table() ==
                        FanOut(old(deliveryRepository.Table()), deliveryRepository.quotas, devices, payload, now + messageTTL)
      ensures r == Err(RecipientRequired) <==> toUsername == ""
      ensures r == Err(RecipientNotFound) <==> toUsername != "" && toUsername !in at(0).users
      ensures toUsername != "" && toUsername in at(0).users ==>
                (r == Err(UnauthorizedSender) <==> !MaySend(sender, at(0).users[toUsername], at(1)))
      ensures toUsername != "" && toUsername in at(0).users && MaySend(sender, at(0).users[toUsername], at(1)) ==>
                && (r == Err(RecipientHasNoDevices) <==> Reachable(at(2), at(0).users[toUsername]) == {})
                && (r == Err(NotEnqueued(QuotaExceeded)) <==>
                      && Reachable(at(2), at(0).users[toUsername]) != {}
                      && forall d <- Reachable(at(2), at(0).users[toUsername]) ::
                           !HasRoom(old(deliveryRepository.Table()), deliveryRepository.quotas, d, |payload|))
    {
      hide HasRoom, FanOut;
      if toUsername == "" { return Err(RecipientRequired); }
      if toUsername !in at(0).users { return Err(RecipientNotFound); }
      var recipient := at(0).users[toUsername];
      if sender != recipient {
        var isFriend := Friends.PairOf(sender, recipient) in at(1).friendships;
        if !isFriend { return Err(UnauthorizedSender); }
      }
      var devices := GetDevicesByUser(at(2), recipient);
      assert devices != [] ==> devices[0] in Reachable(at(2), recipient);
      if |devices| == 0 { return Err(RecipientHasNoDevices); }
      var stored := deliveryRepository.FanOutMessage(devices, payload, messageTTL, now);
      if stored.Err? {
        NoRoomChangesNothing(old(deliveryRepository.Table()), deliveryRepository.quotas, devices, payload, now + messageTTL);
        return Err(NotEnqueued(stored.error));
      }
      return Ok(());
    }

    method SendEnvelope(sender: int, e: Envelope, at: Lookups, now: int, between: seq<Statement>, others: seq<Statement>)
      returns (r: Result<(), SendError>)
      modifies deliveryRepository
      ensures (deliveryRepository.Table(), r)
              == SubmitEnvelope(old(deliveryRepository.Table()), deliveryRepository.quotas, at, sender, e, now, messageTTL, between, others)
    {
      hide Run, Enqueue, LastSequence;
      if e.messageId == "" || e.sender == "" || e.recipient == "" { return Err(IncompleteEnvelope); }
      if e.recipient !in at(0).owners { return Err(RecipientDeviceNotFound); }
      var recipient := at(0).owners[e.recipient];
      if sender != recipient {
        var isFriend := Friends.PairOf(sender, recipient) in at(1).friendships;
        if !isFriend { return Err(UnauthorizedSender); }
      }
      var isActive := HasActiveDevice(at(2), recipient, e.recipient);
      if !isActive { return Err(RecipientDeviceNotFound); }
      var sequence := deliveryRepository.GetLastSequence(e.recipient);
      sequence := sequence + 1;
      deliveryRepository.RunOthers(between);
      var stored := deliveryRepository.EnqueueEnvelope(e, messageTTL, sequence, now, others);
      if stored.Err? { return Err(NotEnqueued(stored.error)); }
      return Ok(());
    }
  }

  lemma NoRoomChangesNothing(q: Queue, quotas: Quotas, devices: seq<Name>, payload: Bytes, expiry: int)
    requires forall d <- devices :: !HasRoom(q, quotas, d, |payload|)
    ensures FanOut(q, quotas, devices, payload, expiry) == q
  {
    NoRowsMeansNoRoom(q, quotas, devices, payload, expiry);
  }
}
