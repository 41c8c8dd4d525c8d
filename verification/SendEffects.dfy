/** What a send leaves in the table and what recipients and workers then read, told from the request
    alone. */
module SendEffects {
  import opened Basics
  import Friends = FriendshipStore
  import opened DeliveryQueue
  import opened QueueRuns
  import opened QueueOrder
  import opened EnvelopeSends
  import opened DeliveryQueueRepositories
  import opened RelayService

  // ----- Envelopes -----

  lemma LastSequenceIsGreatest(q: Queue, device: Name)
    requires WellFormed(q)
    ensures (forall id :: !Owns(q.rows, device, id)) ==> LastSequence(q, device) == 0
    ensures forall id :: Owns(q.rows, device, id) ==> q.rows[id].sequence <= LastSequence(q, device)
    ensures (exists id :: Owns(q.rows, device, id)) ==>
              exists id :: Owns(q.rows, device, id) && q.rows[id].sequence == LastSequence(q, device)
  {
    GreatestIsGreatest(q.rows, device, q.nextId);
  }

  /** A stored row, with every column told from the request. */
  predicate IsRowOf(row: Row, e: Envelope, now: int, ttl: int) {
    && row.device == e.recipient && row.messageId == Some(e.messageId) && row.sender == Some(e.sender)
    && row.protocol == e.protocol && row.payload == e.payload
    && row.expiry == now + ttl && row.nextRetry == now && row.retryCount == 0 && row.ackDeadline == 0
  }

  /** Main result: a stored envelope adds one row under a new id, with the columns of the request, the next
      sequence of its mailbox as it was read, no retries behind it and due at once; nothing else changes. */
  lemma StoredEnvelopeIsTheRequest(q: Queue, quotas: Quotas, at: Lookups, sender: int, e: Envelope, now: int, ttl: int,
                                   between: seq<Statement>)
    requires WellFormed(q) && Complete(e) && Entitled(sender, e, at) && |e.payload| <= quotas.maxEnvelope
    requires Stored(Run(q, quotas, between), quotas, e, now, ttl, LastSequence(q, e.recipient) + 1)
    ensures var q1, q' := Run(q, quotas, between), SubmitEnvelope(q, quotas, at, sender, e, now, ttl, between, []).0;
            var id := q1.nextId;
            && id in q'.rows && q'.rows == q1.rows[id := q'.rows[id]] && q'.nextId == id + 1
            && IsRowOf(q'.rows[id], e, now, ttl)
            && ((forall j :: !Owns(q.rows, e.recipient, j)) ==> q'.rows[id].sequence == 1)
            && ((exists j :: Owns(q.rows, e.recipient, j)) ==>
                  exists j :: Owns(q.rows, e.recipient, j) && q'.rows[id].sequence == q.rows[j].sequence + 1)
            && (forall j :: Owns(q.rows, e.recipient, j) ==> q.rows[j].sequence < q'.rows[id].sequence)
  {
    LastSequenceIsGreatest(q, e.recipient);
    StoredIsInserted(q, quotas, at, sender, e, now, ttl, between);
    hide Run, SubmitEnvelope, LastSequence, HasRoom;
  }

  /** Main result: its device polls it exactly until its time to live is over, as long as nobody removes it. */
  lemma StoredEnvelopeIsPolledUntilExpiry(q: Queue, quotas: Quotas, id: nat, e: Envelope, now: int, ttl: int,
                                          ss: seq<Statement>, t: int, ids: seq<nat>)
    requires WellFormed(q) && id in q.rows && IsRowOf(q.rows[id], e, now, ttl)
    requires !SomeRemoves(ss, id, q.rows[id])
    requires IsPoll(Run(q, quotas, ss), e.recipient, t, ids)
    ensures id in ids <==> t < now + ttl
    ensures id in Run(q, quotas, ss).rows && Run(q, quotas, ss).rows[id].payload == e.payload
  {
    RowLivesUntilRemoved(q, quotas, ss, id);
    hide Run, SomeRemoves;
  }

  /** Main result: from the moment it is stored it is due: a dispatch takes it or is full of rows at least as
      overdue. */
  lemma StoredEnvelopeIsDueAtOnce(q: Queue, id: nat, e: Envelope, now: int, ttl: int, t: int, batch: nat, ids: seq<nat>)
    requires id in q.rows && IsRowOf(q.rows[id], e, now, ttl) && now <= t
    requires IsDueBatch(q, t, batch, ids)
    ensures id in ids || (|ids| == batch && forall other <- ids :: other in q.rows && q.rows[other].nextRetry <= now)
  {
  }

  /** Main result: sending under a queued message id, undisturbed, changes nothing, and succeeds exactly if the
      queued row has the same sender, recipient and payload. */
  lemma RepeatIsExact(q: Queue, quotas: Quotas, e: Envelope, now: int, ttl: int, sequence: int, id: nat)
    requires Invariant(q, quotas) && |e.payload| <= quotas.maxEnvelope && e.sender != ""
    requires id in q.rows && q.rows[id].messageId == Some(e.messageId)
    ensures var (q', r) := Enqueue(q, quotas, e, now, ttl, sequence, []);
            && q' == q
            && r == if q.rows[id].sender == Some(e.sender) && q.rows[id].device == e.recipient && q.rows[id].payload == e.payload
                    then Ok(()) else Err(DuplicateConflict)
  {
    UndisturbedSend(q, quotas, e, now, ttl, sequence);
    hide Enqueue, HasRoom;
    assert MessageIsQueued(q, e.messageId);
    assert CarriedBy(q, e) <==> Compatible(q.rows[id], e);
  }

  /** Which refusal a send gets, told from the request and the directories it looked at. */
  lemma SendVerdictIsExact(q: Queue, quotas: Quotas, at: Lookups, sender: int, e: Envelope, now: int, ttl: int,
                           between: seq<Statement>, others: seq<Statement>)
    requires Invariant(q, quotas) && AllIssued(between) && AllIssued(others)
    ensures var (q', r) := SubmitEnvelope(q, quotas, at, sender, e, now, ttl, between, others);
            var q1 := Run(q, quotas, between);
            var complete := e.messageId != "" && e.sender != "" && e.recipient != "";
            var known := e.recipient in at(0).owners;
            var allowed := known && (sender == at(0).owners[e.recipient]
                                     || Friends.PairOf(sender, at(0).owners[e.recipient]) in at(1).friendships);
            var reachable := known && e.recipient in at(2).active && e.recipient in at(2).owners
                             && at(2).owners[e.recipient] == at(0).owners[e.recipient];
            var entitled := complete && allowed && reachable;
            && (r == Err(IncompleteEnvelope) <==> !complete)
            && (r == Err(UnauthorizedSender) <==> complete && known && !allowed)
            && (r == Err(RecipientDeviceNotFound) <==> complete && (!known || (allowed && !reachable)))
            && (r == Err(NotEnqueued(EnvelopeTooLarge)) <==> entitled && |e.payload| > quotas.maxEnvelope)
            && (r == Err(NotEnqueued(QuotaExceeded)) ==>
                  && entitled && !MessageIsQueued(q', e.messageId)
                  && (MessageIsQueued(q1, e.messageId) || !HasRoom(q1, quotas, e.recipient, |e.payload|)))
            && (r == Err(NotEnqueued(DuplicateConflict)) ==> entitled && MessageIsQueued(q', e.messageId) && !CarriedBy(q', e))
            && ((entitled && |e.payload| <= quotas.maxEnvelope && !MessageIsQueued(q1, e.messageId)
                 && HasRoom(q1, quotas, e.recipient, |e.payload|)) ==> r == Ok(()))
  {
    var q1 := Run(q, quotas, between);
    RunKeepsInvariant(q, quotas, between);
    if |e.payload| <= quotas.maxEnvelope {
      VerdictIsHonest(q1, quotas, e, now, ttl, LastSequence(q, e.recipient) + 1, others);
    }
    hide Run, Invariant, HasRoom, LastSequence, CarriedBy, FindMessage, MessageIsQueued;
  }

  // ----- Fan-outs -----

  lemma {:induction false} NewestSequenceIsNewest(rows: map<nat, Row>, device: Name, n: nat)
    ensures if exists id: nat :: id < n && Owns(rows, device, id) then
              exists id: nat :: id < n && Owns(rows, device, id) && (forall j: nat :: j < n && Owns(rows, device, j) ==> j <= id)
                        && NewestSequenceBelow(rows, device, n) == rows[id].sequence
            else NewestSequenceBelow(rows, device, n) == 0
  {
    if n > 0 && !Owns(rows, device, n - 1) {
      NewestSequenceIsNewest(rows, device, n - 1);
    }
  }

  /** A fan-out row, with every column told from the request. */
  predicate IsFanOutRow(q: Queue, row: Row, payload: Bytes, expiry: int) {
    && row.messageId.None? && row.sender.None? && row.protocol == 1 && row.payload == payload && row.expiry == expiry
    && row.retryCount == 0 && row.nextRetry == 0 && row.ackDeadline == 0
    && row.sequence == NewestSequence(q, row.device) + 1
  }

  lemma {:induction false} FanOutRowsAreExact(q: Queue, quotas: Quotas, devices: seq<Name>, payload: Bytes, expiry: int)
    ensures forall row <- FanOutRows(q, quotas, devices, payload, expiry) ::
              row.device in devices && HasRoom(q, quotas, row.device, |payload|) && IsFanOutRow(q, row, payload, expiry)
  {
    if devices != [] {
      FanOutRowsAreExact(q, quotas, devices[1..], payload, expiry);
      hide HasRoom, NewestSequence;
    }
  }

  /** Main result: every row that a fan-out adds has the columns of the request and the sequence after the
      newest row of its mailbox, and is due at once. */
  lemma FannedOutRowsAreTheRequest(q: Queue, quotas: Quotas, devices: seq<Name>, payload: Bytes, expiry: int, id: nat)
    requires WellFormed(q) && Distinct(devices) && id !in q.rows && id in FanOut(q, quotas, devices, payload, expiry).rows
    ensures var row := FanOut(q, quotas, devices, payload, expiry).rows[id];
            && row.device in devices && HasRoom(q, quotas, row.device, |payload|) && IsFanOutRow(q, row, payload, expiry)
            && ((forall j :: !Owns(q.rows, row.device, j)) ==> row.sequence == 1)
            && ((exists j :: Owns(q.rows, row.device, j)) ==>
                  exists j :: Owns(q.rows, row.device, j) && (forall k :: Owns(q.rows, row.device, k) ==> k <= j)
                           && row.sequence == q.rows[j].sequence + 1)
  {
    FanOutRowsAreExact(q, quotas, devices, payload, expiry);
    InsertAllAdds(q, FanOutRows(q, quotas, devices, payload, expiry), "");
    var row := FanOut(q, quotas, devices, payload, expiry).rows[id];
    NewestSequenceIsNewest(q.rows, row.device, q.nextId);
    hide FanOutRows, HasRoom, MessageCount;
  }

  // ----- Room -----

  /** The rows of a mailbox. */
  function Mailbox(q: Queue, device: Name): set<nat> {
    set id | id in q.rows && q.rows[id].device == device
  }

  lemma {:induction false} CountIsCardinality(q: Queue, device: Name, n: nat)
    ensures CountBelow(q.rows, device, n) == |set id | id in q.rows && q.rows[id].device == device && id < n|
  {
    var below := set id | id in q.rows && q.rows[id].device == device && id < n;
    if n > 0 {
      CountIsCardinality(q, device, n - 1);
      var before := set id | id in q.rows && q.rows[id].device == device && id < n - 1;
      assert below == if Owns(q.rows, device, n - 1) then before + {n - 1} else before;
    }
  }

  /** There is room for a message exactly while the mailbox has fewer rows than allowed and its bytes and the
      new ones fit. */
  lemma RoomIsExact(q: Queue, quotas: Quotas, device: Name, size: nat)
    requires WellFormed(q)
    ensures HasRoom(q, quotas, device, size)
            <==> |Mailbox(q, device)| < quotas.maxMessages && MailboxBytes(q, device) + size <= quotas.maxBytes
  {
    CountIsCardinality(q, device, q.nextId);
    assert Mailbox(q, device) == set id | id in q.rows && q.rows[id].device == device && id < q.nextId;
  }
}
