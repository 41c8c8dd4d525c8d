/** The delivery protocol: a ticking dispatcher that hands out snapshots of due rows, any number of
    workers that act on snapshots of any age, and everyone else changing the table meanwhile. Each
    statement, each clock reading and each push is one step. */
module DeliveryProtocol {
  import opened Basics
  import opened DeliveryQueue
  import opened QueueRuns
  import opened DeliveryWorkers

  /** How far a worker has come. `now` is its one clock reading. */
  datatype Phase =
    | Spawned
    | Ready(now: int)
    | Claimed(now: int)
    | Answered(now: int, pushed: bool)
    | Notifying
    | Finished
  {
    predicate HasRead() {
      Ready? || Claimed? || Answered?
    }
  }

  /** A worker holds the row as it was when dispatched. */
  datatype Worker = Worker(id: nat, seen: Row, phase: Phase)
  {
    predicate Waiting() {
      phase.Spawned? || phase.Ready?
    }

    /** Between a successful claim and the write-back. */
    predicate Holds() {
      phase.Claimed? || phase.Answered?
    }
  }

  datatype Fact =
    | ClaimMade(id: nat, seen: int, now: int)
    | PushMade(id: nat, pushed: bool)
    | NoticeSent(id: nat)

  datatype World = World(queue: Queue, clock: int, workers: map<nat, Worker>, history: seq<Fact>)
  {
    predicate Live(id: nat) {
      id in queue.rows
    }
  }

  datatype Event =
    | Tick(to: int)
    | Dispatch(spawned: nat, row: nat)
    | Start(who: nat)
    | Claim(who: nat)
    | Answer(who: nat, pushed: bool)
    | WriteBackDone(who: nat)
    | WriteBackLost(who: nat)
    | Notify(who: nat)
    | Outside(statement: Statement)

  predicate MayWriteBack(a: Worker) {
    a.phase.Answered? || (a.phase.Claimed? && Exhausted(a.seen))
  }

  predicate Enabled(w: World, e: Event) {
    match e
    case Tick(to) => w.clock <= to
    case Dispatch(k, id) => k !in w.workers && w.Live(id) && w.queue.rows[id].nextRetry <= w.clock
    case Start(k) => k in w.workers && w.workers[k].phase.Spawned?
    case Claim(k) => k in w.workers && w.workers[k].phase.Ready?
    case Answer(k, _) => k in w.workers && w.workers[k].phase.Claimed? && !Exhausted(w.workers[k].seen)
    case WriteBackDone(k) => k in w.workers && MayWriteBack(w.workers[k])
    case WriteBackLost(k) => k in w.workers && MayWriteBack(w.workers[k])
    case Notify(k) => k in w.workers && w.workers[k].phase.Notifying?
    case Outside(s) => !s.ClaimStmt? && !s.UpdateStmt? && Issued(s)
  }

  /** The lease: a worker that has read the clock is done before the lock duration is over. */
  predicate InLease(w: World, e: Event) {
    e.Tick? ==> forall k :: k in w.workers && w.workers[k].phase.HasRead() ==>
                              e.to < w.workers[k].phase.now + DELIVERY_LOCK_DURATION
  }

  function SetPhase(w: World, k: nat, p: Phase): World
    requires k in w.workers
  {
    w.(workers := w.workers[k := w.workers[k].(phase := p)])
  }

  function AfterWriteBack(a: Worker): Phase {
    if a.phase.Answered? && Notifies(a.seen, a.phase.pushed) then Notifying else Finished
  }

  function Written(w: World, k: nat): Queue
    requires k in w.workers && w.workers[k].phase.HasRead()
  {
    var a := w.workers[k];
    Store(w.queue, a.id, WriteBack(a.seen, a.phase.now, a.phase.Answered? && a.phase.pushed))
  }

  function Step(w: World, quotas: Quotas, e: Event): World
    requires Enabled(w, e)
  {
    match e
    case Tick(to) => w.(clock := to)
    case Dispatch(k, id) => w.(workers := w.workers[k := Worker(id, w.queue.rows[id], Spawned)])
    case Start(k) => SetPhase(w, k, Ready(w.clock))
    case Claim(k) =>
      var a := w.workers[k];
      var (q, claimed) := ClaimItem(w.queue, a.id, a.phase.now + DELIVERY_LOCK_DURATION, a.seen.nextRetry);
      if claimed then
        SetPhase(w, k, Claimed(a.phase.now)).(queue := q, history := w.history + [ClaimMade(a.id, a.seen.nextRetry, a.phase.now)])
      else SetPhase(w, k, Finished)
    case Answer(k, pushed) =>
      SetPhase(w, k, Answered(w.workers[k].phase.now, pushed)).(history := w.history + [PushMade(w.workers[k].id, pushed)])
    case WriteBackDone(k) => SetPhase(w, k, AfterWriteBack(w.workers[k])).(queue := Written(w, k))
    case WriteBackLost(k) => SetPhase(w, k, AfterWriteBack(w.workers[k]))
    case Notify(k) => SetPhase(w, k, Finished).(history := w.history + [NoticeSent(w.workers[k].id)])
    case Outside(s) => w.(queue := Execute(w.queue, quotas, s))
  }

  ghost predicate ValidRun(w: World, quotas: Quotas, es: seq<Event>)
    decreases |es|
  {
    es == [] || (Enabled(w, es[0]) && InLease(w, es[0]) && ValidRun(Step(w, quotas, es[0]), quotas, es[1..]))
  }

  ghost function RunEvents(w: World, quotas: Quotas, es: seq<Event>): World
    requires ValidRun(w, quotas, es)
    decreases |es|
  {
    if es == [] then w else RunEvents(Step(w, quotas, es[0]), quotas, es[1..])
  }

  predicate Fresh(w: World) {
    && WellFormed(w.queue) && w.clock >= 0 && w.workers == map[] && w.history == []
    && forall id :: id in w.queue.rows ==> Sane(w.queue.rows[id])
  }

  // ----- The invariant -----

  /** The retry state of the row is the one in the snapshot. */
  predicate Unchanged(row: Row, seen: Row) {
    row.retryCount == seen.retryCount && row.ackDeadline == seen.ackDeadline
  }

  predicate WorkerOk(w: World, a: Worker) {
    && a.id < w.queue.nextId
    && Sane(a.seen)
    && (a.phase.HasRead() ==>
          a.seen.nextRetry <= a.phase.now <= w.clock < a.phase.now + DELIVERY_LOCK_DURATION && a.phase.now >= 0)
    && (a.Waiting() ==> a.seen.nextRetry <= w.clock)
    && (a.Waiting() && w.Live(a.id) ==>
          var row := w.queue.rows[a.id];
          a.seen.nextRetry <= row.nextRetry && (a.seen.nextRetry == row.nextRetry ==> Unchanged(row, a.seen)))
    && (a.Holds() && w.Live(a.id) ==>
          var row := w.queue.rows[a.id];
          row.nextRetry == a.phase.now + DELIVERY_LOCK_DURATION && Unchanged(row, a.seen))
    && (a.phase.Answered? ==> !Exhausted(a.seen))
  }

  /** Two workers with snapshots of the same row: at most one holds it, and the other's is older. */
  predicate PairOk(w: World, a: Worker, b: Worker) {
    a.id == b.id && a.Holds() ==>
      !b.Holds() && (b.Waiting() && w.Live(b.id) ==> b.seen.nextRetry <= a.phase.now)
  }

  predicate ClaimOk(w: World, f: Fact) {
    f.ClaimMade? ==>
      && f.id < w.queue.nextId && f.seen <= f.now
      && (w.Live(f.id) ==> w.queue.rows[f.id].nextRetry >= f.now + 60)
      && (forall k :: k in w.workers && w.workers[k].id == f.id && w.workers[k].Holds() ==> f.now <= w.workers[k].phase.now)
  }

  /** Later claims of a row start from a later snapshot, a minute or more after the earlier reading. */
  predicate ClaimsApart(f: Fact, g: Fact) {
    f.ClaimMade? && g.ClaimMade? && f.id == g.id ==> f.seen < g.seen && f.now + 60 <= g.now
  }

  predicate TableOk(w: World) {
    && WellFormed(w.queue) && w.clock >= 0
    && forall id :: id in w.queue.rows ==> Sane(w.queue.rows[id])
  }

  predicate WorkersOk(w: World) {
    && (forall k :: k in w.workers ==> WorkerOk(w, w.workers[k]))
    && (forall j, k :: j in w.workers && k in w.workers && j != k ==> PairOk(w, w.workers[j], w.workers[k]))
  }

  predicate ClaimsOk(w: World) {
    && (forall i :: 0 <= i < |w.history| ==> ClaimOk(w, w.history[i]))
    && (forall i, j :: 0 <= i < j < |w.history| ==> ClaimsApart(w.history[i], w.history[j]))
  }

  predicate Safe(w: World) {
    TableOk(w) && WorkersOk(w) && ClaimsOk(w)
  }

  // ----- One step keeps it -----

  /** Statements of others add sane rows with new ids, take rows away, and leave the rest as it is. */
  lemma OutsideEffect(q: Queue, quotas: Quotas, s: Statement)
    requires WellFormed(q) && !s.ClaimStmt? && !s.UpdateStmt?
    ensures var q' := Execute(q, quotas, s);
            && WellFormed(q') && q'.nextId >= q.nextId
            && (forall id :: id in q'.rows && id < q.nextId ==> id in q.rows && q'.rows[id] == q.rows[id])
            && (forall id :: id in q'.rows && id >= q.nextId ==> Sane(q'.rows[id]))
  {
    if s.FanOutStmt? {
      var rows := FanOutRows(q, quotas, s.devices, s.payload, s.expiry);
      InsertAllKeepsRows(q, rows);
      FanOutRowsAreSane(q, quotas, s.devices, s.payload, s.expiry);
      InsertAllSane(q, rows);
    }
  }

  lemma {:induction false} FanOutRowsAreSane(q: Queue, quotas: Quotas, devices: seq<Name>, payload: Bytes, expiry: int)
    ensures forall row :: row in FanOutRows(q, quotas, devices, payload, expiry) ==> Sane(row)
    decreases |devices|
  {
    if devices != [] {
      FanOutRowsAreSane(q, quotas, devices[1..], payload, expiry);
    }
  }

  lemma {:induction false} InsertAllSane(q: Queue, rows: seq<Row>)
    requires WellFormed(q) && forall row :: row in rows ==> Sane(row)
    ensures forall id :: id in InsertAll(q, rows).rows && id >= q.nextId ==> Sane(InsertAll(q, rows).rows[id])
    decreases |rows|
  {
    if rows != [] {
      InsertAllSane(Insert(q, rows[0]), rows[1..]);
      InsertAllKeepsRows(Insert(q, rows[0]), rows[1..]);
    }
  }

  /** A snapshot that can be claimed is of the row as it still is, and no one else holds that row. */
  lemma ClaimFindsRowUnchanged(w: World, k: nat)
    requires Safe(w) && k in w.workers && w.workers[k].phase.Ready?
    requires w.Live(w.workers[k].id) && w.queue.rows[w.workers[k].id].nextRetry <= w.workers[k].seen.nextRetry
    ensures var a := w.workers[k]; var row := w.queue.rows[a.id];
            && row.nextRetry == a.seen.nextRetry && Unchanged(row, a.seen)
            && forall j :: j in w.workers && w.workers[j].id == a.id ==> !w.workers[j].Holds()
  {
  }

  lemma ClaimKeepsEachWorker(w: World, quotas: Quotas, k: nat)
    requires Safe(w) && Enabled(w, Claim(k))
    ensures var w' := Step(w, quotas, Claim(k)); forall j :: j in w'.workers ==> WorkerOk(w', w'.workers[j])
  {
    hide Sane, Exhausted;
    var a, w' := w.workers[k], Step(w, quotas, Claim(k));
    if w.Live(a.id) && w.queue.rows[a.id].nextRetry <= a.seen.nextRetry {
      ClaimFindsRowUnchanged(w, k);
    }
    forall j | j in w'.workers ensures WorkerOk(w', w'.workers[j]) {
      assert WorkerOk(w, w.workers[j]);
    }
  }

  lemma ClaimKeepsPairs(w: World, quotas: Quotas, k: nat)
    requires Safe(w) && Enabled(w, Claim(k))
    ensures var w' := Step(w, quotas, Claim(k));
            forall i, j :: i in w'.workers && j in w'.workers && i != j ==> PairOk(w', w'.workers[i], w'.workers[j])
  {
  }

  lemma ClaimKeepsClaims(w: World, quotas: Quotas, k: nat)
    requires Safe(w) && Enabled(w, Claim(k))
    ensures ClaimsOk(Step(w, quotas, Claim(k)))
  {
    var a, w' := w.workers[k], Step(w, quotas, Claim(k));
    assert WorkerOk(w, a);
    forall i | 0 <= i < |w'.history| ensures ClaimOk(w', w'.history[i]) {
      if i < |w.history| { assert ClaimOk(w, w.history[i]); }
      if w'.history != w.history { ClaimFindsRowUnchanged(w, k); }
    }
    forall i, j | 0 <= i < j < |w'.history| ensures ClaimsApart(w'.history[i], w'.history[j]) {
      assert ClaimOk(w, w.history[i]);
      if j < |w.history| { assert ClaimsApart(w.history[i], w.history[j]); }
    }
  }

  /** Steps that touch neither the table nor a claim: clock, dispatch, start, push, lost write, notice. */
  predicate Quiet(e: Event) {
    !e.Claim? && !e.WriteBackDone? && !e.Outside?
  }

  lemma QuietKeepsEachWorker(w: World, quotas: Quotas, e: Event)
    requires Safe(w) && Enabled(w, e) && InLease(w, e) && Quiet(e)
    ensures var w' := Step(w, quotas, e); forall j :: j in w'.workers ==> WorkerOk(w', w'.workers[j])
  {
    hide Sane, Exhausted;
    var w' := Step(w, quotas, e);
    forall k | k in w'.workers ensures WorkerOk(w', w'.workers[k]) {
      assert k in w.workers ==> WorkerOk(w, w.workers[k]);
    }
  }

  lemma QuietKeepsPairs(w: World, quotas: Quotas, e: Event)
    requires Safe(w) && Enabled(w, e) && Quiet(e)
    ensures var w' := Step(w, quotas, e);
            forall i, j :: i in w'.workers && j in w'.workers && i != j ==> PairOk(w', w'.workers[i], w'.workers[j])
  {
  }

  lemma QuietKeepsClaims(w: World, quotas: Quotas, e: Event)
    requires Safe(w) && Enabled(w, e) && Quiet(e)
    ensures ClaimsOk(Step(w, quotas, e))
  {
    var w' := Step(w, quotas, e);
    forall i | 0 <= i < |w'.history| ensures ClaimOk(w', w'.history[i]) {
      if i < |w.history| { assert ClaimOk(w, w.history[i]); }
    }
    forall i, j | 0 <= i < j < |w'.history| ensures ClaimsApart(w'.history[i], w'.history[j]) {
      if j < |w.history| { assert ClaimsApart(w.history[i], w.history[j]); }
    }
  }

  /** What a write-back does to the table. */
  lemma WriteBackEffect(w: World, k: nat)
    requires Safe(w) && Enabled(w, WriteBackDone(k))
    ensures var a, q' := w.workers[k], Written(w, k);
            && q'.nextId == w.queue.nextId && q'.rows.Keys == w.queue.rows.Keys
            && (forall id :: id in q'.rows && id != a.id ==> q'.rows[id] == w.queue.rows[id])
            && (a.id in q'.rows ==> q'.rows[a.id].nextRetry >= a.phase.now + 60 && Sane(q'.rows[a.id]))
  {
    var a := w.workers[k];
    assert WorkerOk(w, a);
    AttemptMovesForward(a.seen, a.phase.now, a.phase.Answered? && a.phase.pushed);
    hide WriteBack;
  }

  lemma WriteBackKeepsWorkers(w: World, quotas: Quotas, k: nat)
    requires Safe(w) && Enabled(w, WriteBackDone(k))
    ensures WorkersOk(Step(w, quotas, WriteBackDone(k)))
  {
    var a, w' := w.workers[k], Step(w, quotas, WriteBackDone(k));
    WriteBackEffect(w, k);
    hide Written;
    assert WorkerOk(w, a);
    forall j | j in w'.workers ensures WorkerOk(w', w'.workers[j]) {
      assert WorkerOk(w, w.workers[j]);
      if j != k { assert PairOk(w, a, w.workers[j]); }
    }
    forall i, j | i in w'.workers && j in w'.workers && i != j ensures PairOk(w', w'.workers[i], w'.workers[j]) {
      assert PairOk(w, w.workers[i], w.workers[j]);
    }
  }

  lemma WriteBackKeepsClaims(w: World, quotas: Quotas, k: nat)
    requires Safe(w) && Enabled(w, WriteBackDone(k))
    ensures ClaimsOk(Step(w, quotas, WriteBackDone(k)))
  {
    var w' := Step(w, quotas, WriteBackDone(k));
    WriteBackEffect(w, k);
    hide Written;
    forall i | 0 <= i < |w'.history| ensures ClaimOk(w', w'.history[i]) {
      assert ClaimOk(w, w.history[i]);
    }
  }

  lemma OutsideKeepsWorkers(w: World, quotas: Quotas, s: Statement)
    requires Safe(w) && Enabled(w, Outside(s))
    ensures WorkersOk(Step(w, quotas, Outside(s)))
  {
    var w' := Step(w, quotas, Outside(s));
    OutsideEffect(w.queue, quotas, s);
    hide Execute;
    forall k | k in w'.workers ensures WorkerOk(w', w'.workers[k]) {
      assert WorkerOk(w, w.workers[k]);
    }
    forall j, k | j in w'.workers && k in w'.workers && j != k ensures PairOk(w', w'.workers[j], w'.workers[k]) {
      assert PairOk(w, w.workers[j], w.workers[k]) && WorkerOk(w, w.workers[k]);
    }
  }

  lemma OutsideKeepsClaims(w: World, quotas: Quotas, s: Statement)
    requires Safe(w) && Enabled(w, Outside(s))
    ensures ClaimsOk(Step(w, quotas, Outside(s)))
  {
    var w' := Step(w, quotas, Outside(s));
    OutsideEffect(w.queue, quotas, s);
    hide Execute;
    forall i | 0 <= i < |w'.history| ensures ClaimOk(w', w'.history[i]) {
      assert ClaimOk(w, w.history[i]);
    }
  }

  lemma StepKeepsTable(w: World, quotas: Quotas, e: Event)
    requires Safe(w) && Enabled(w, e)
    ensures TableOk(Step(w, quotas, e))
  {
    if e.Outside? {
      OutsideEffect(w.queue, quotas, e.statement);
    } else if e.WriteBackDone? {
      WriteBackEffect(w, e.who);
    }
    hide Execute, Written;
  }

  lemma StepKeepsSafe(w: World, quotas: Quotas, e: Event)
    requires Safe(w) && Enabled(w, e) && InLease(w, e)
    ensures Safe(Step(w, quotas, e))
  {
    StepKeepsTable(w, quotas, e);
    match e {
      case Claim(k) =>
        ClaimKeepsEachWorker(w, quotas, k);
        ClaimKeepsPairs(w, quotas, k);
        ClaimKeepsClaims(w, quotas, k);
      case WriteBackDone(k) =>
        WriteBackKeepsWorkers(w, quotas, k);
        WriteBackKeepsClaims(w, quotas, k);
      case Outside(s) =>
        OutsideKeepsWorkers(w, quotas, s);
        OutsideKeepsClaims(w, quotas, s);
      case _ =>
        QuietKeepsEachWorker(w, quotas, e);
        QuietKeepsPairs(w, quotas, e);
        QuietKeepsClaims(w, quotas, e);
    }
  }

  lemma {:induction false} RunKeepsSafe(w: World, quotas: Quotas, es: seq<Event>)
    requires Safe(w) && ValidRun(w, quotas, es)
    ensures Safe(RunEvents(w, quotas, es))
    decreases |es|
  {
    if es != [] {
      StepKeepsSafe(w, quotas, es[0]);
      hide Safe, Step, Enabled;
      RunKeepsSafe(Step(w, quotas, es[0]), quotas, es[1..]);
    }
  }

  // ----- What that means -----

  /** Main result: within the lease no two workers ever hold the same row, whatever stale snapshots
      earlier ticks handed out. */
  lemma NoTwoWorkersHoldOneRow(w: World, quotas: Quotas, es: seq<Event>, j: nat, k: nat)
    requires Fresh(w) && ValidRun(w, quotas, es)
    requires var end := RunEvents(w, quotas, es);
             j in end.workers && k in end.workers && end.workers[j].id == end.workers[k].id
             && end.workers[j].Holds() && end.workers[k].Holds()
    ensures j == k
  {
    RunKeepsSafe(w, quotas, es);
    var end := RunEvents(w, quotas, es);
    assert j != k ==> PairOk(end, end.workers[j], end.workers[k]);
  }

  /** Main result: in the history of a run, claims of one row are by ever later snapshots, so none is
      claimed twice, and by clock readings at least a minute apart. */
  lemma ClaimsOfARowAreApart(w: World, quotas: Quotas, es: seq<Event>, i: nat, j: nat)
    requires Fresh(w) && ValidRun(w, quotas, es)
    requires var h := RunEvents(w, quotas, es).history;
             i < j < |h| && h[i].ClaimMade? && h[j].ClaimMade? && h[i].id == h[j].id
    ensures var h := RunEvents(w, quotas, es).history; h[i].seen < h[j].seen && h[i].now + 60 <= h[j].now
  {
    RunKeepsSafe(w, quotas, es);
    var end := RunEvents(w, quotas, es);
    assert ClaimsApart(end.history[i], end.history[j]);
  }

  /** Main result: a claim that succeeds after any run finds the row's retry state as it was in the
      snapshot, although the statement compares only times, and only by `<=`. */
  lemma SuccessfulClaimIsOfTheSnapshot(w: World, quotas: Quotas, es: seq<Event>, k: nat)
    requires Fresh(w) && ValidRun(w, quotas, es)
    requires var end := RunEvents(w, quotas, es);
             Enabled(end, Claim(k)) && Step(end, quotas, Claim(k)).workers[k].phase.Claimed?
    ensures var end := RunEvents(w, quotas, es); var a := end.workers[k];
            end.Live(a.id) && end.queue.rows[a.id].nextRetry == a.seen.nextRetry && Unchanged(end.queue.rows[a.id], a.seen)
  {
    RunKeepsSafe(w, quotas, es);
    ClaimFindsRowUnchanged(RunEvents(w, quotas, es), k);
  }

  /** The lease is exactly what it takes: once a holder has overrun it, another worker gets the row. */
  lemma OverrunLetsAnotherIn(w: World, quotas: Quotas, k: nat, j: nat)
    requires WellFormed(w.queue) && k in w.workers && j !in w.workers && w.workers[k].Holds() && w.Live(w.workers[k].id)
    requires w.queue.rows[w.workers[k].id].nextRetry == w.workers[k].phase.now + DELIVERY_LOCK_DURATION <= w.clock
    ensures Enabled(w, Dispatch(j, w.workers[k].id))
    ensures var w1 := Step(w, quotas, Dispatch(j, w.workers[k].id));
            && Enabled(w1, Start(j)) && Enabled(Step(w1, quotas, Start(j)), Claim(j))
            && var w2 := Step(Step(w1, quotas, Start(j)), quotas, Claim(j));
               w2.workers[j].Holds() && w2.workers[k].Holds() && w2.workers[j].id == w2.workers[k].id
  {
  }

  /** Runs in which workers may take any time they like. */
  ghost predicate Possible(w: World, quotas: Quotas, es: seq<Event>)
    decreases |es|
  {
    es == [] || (Enabled(w, es[0]) && Possible(Step(w, quotas, es[0]), quotas, es[1..]))
  }

  ghost function Play(w: World, quotas: Quotas, es: seq<Event>): World
    requires Possible(w, quotas, es)
    decreases |es|
  {
    if es == [] then w else Play(Step(w, quotas, es[0]), quotas, es[1..])
  }

  lemma OneMore(w: World, quotas: Quotas, e: Event, es: seq<Event>)
    requires Enabled(w, e) && Possible(Step(w, quotas, e), quotas, es)
    ensures Possible(w, quotas, [e] + es) && Play(w, quotas, [e] + es) == Play(Step(w, quotas, e), quotas, es)
  {
    assert ([e] + es)[1..] == es;
    hide Step, Enabled;
  }

  /** The lease cannot be dropped: from any start with a due row, a first worker that claims and then takes
      120 seconds ends up holding the row together with a second one. */
  lemma OverrunIsReachable(w: World, quotas: Quotas, id: nat) returns (es: seq<Event>)
    requires Fresh(w) && w.Live(id) && w.queue.rows[id].nextRetry <= w.clock
    ensures Possible(w, quotas, es)
    ensures var end := Play(w, quotas, es);
            && 0 in end.workers && 1 in end.workers && end.workers[0].id == end.workers[1].id == id
            && end.workers[0].Holds() && end.workers[1].Holds()
  {
    var w4, first := FirstOverruns(w, quotas, id);
    OverrunLetsAnotherIn(w4, quotas, 0, 1);
    var w5 := Step(w4, quotas, Dispatch(1, id));
    var w6 := Step(w5, quotas, Start(1));
    var w7 := Step(w6, quotas, Claim(1));
    hide Step, Enabled, Fresh;
    OneMore(w6, quotas, Claim(1), []);
    OneMore(w5, quotas, Start(1), [Claim(1)] + []);
    OneMore(w4, quotas, Dispatch(1, id), [Start(1)] + ([Claim(1)] + []));
    es := first + ([Dispatch(1, id)] + ([Start(1)] + ([Claim(1)] + [])));
    PlayOn(w, quotas, first, [Dispatch(1, id)] + ([Start(1)] + ([Claim(1)] + [])));
  }

  lemma {:induction false} PlayOn(w: World, quotas: Quotas, es: seq<Event>, more: seq<Event>)
    requires Possible(w, quotas, es) && Possible(Play(w, quotas, es), quotas, more)
    ensures Possible(w, quotas, es + more) && Play(w, quotas, es + more) == Play(Play(w, quotas, es), quotas, more)
    decreases |es|
  {
    hide Step, Enabled;
    if es == [] {
      assert es + more == more;
    } else {
      PlayOn(Step(w, quotas, es[0]), quotas, es[1..], more);
      assert (es + more)[0] == es[0] && (es + more)[1..] == es[1..] + more;
    }
  }

  lemma FirstOverruns(w: World, quotas: Quotas, id: nat) returns (late: World, es: seq<Event>)
    requires Fresh(w) && w.Live(id) && w.queue.rows[id].nextRetry <= w.clock
    ensures Possible(w, quotas, es) && Play(w, quotas, es) == late
    ensures WellFormed(late.queue) && late.Live(id) && late.workers.Keys == {0} && late.workers[0].id == id && late.workers[0].Holds()
    ensures late.queue.rows[id].nextRetry == late.workers[0].phase.now + DELIVERY_LOCK_DURATION == late.clock
  {
    var w1 := Step(w, quotas, Dispatch(0, id));
    var w2 := Step(w1, quotas, Start(0));
    var w3 := Step(w2, quotas, Claim(0));
    var to := w.clock + DELIVERY_LOCK_DURATION;
    late := Step(w3, quotas, Tick(to));
    assert w3.workers[0].Holds() && w3.queue.rows[id].nextRetry == to;
    hide Step;
    OneMore(w3, quotas, Tick(to), []);
    OneMore(w2, quotas, Claim(0), [Tick(to)] + []);
    OneMore(w1, quotas, Start(0), [Claim(0)] + ([Tick(to)] + []));
    OneMore(w, quotas, Dispatch(0, id), [Start(0)] + ([Claim(0)] + ([Tick(to)] + [])));
    es := [Dispatch(0, id)] + ([Start(0)] + ([Claim(0)] + ([Tick(to)] + [])));
  }

  /** A claim puts the row off by two minutes from the worker's reading, and the lease allows it less than that. */
  lemma ClaimHoldsForTwoMinutes(w: World, quotas: Quotas, k: nat, to: int)
    requires Enabled(w, Claim(k)) && Step(w, quotas, Claim(k)).workers[k].phase.Claimed?
    ensures var a := w.workers[k];
            Step(w, quotas, Claim(k)).queue.rows == w.queue.rows[a.id := w.queue.rows[a.id].(nextRetry := a.phase.now + 120)]
    ensures InLease(w, Tick(to)) ==> to < w.workers[k].phase.now + 120
    ensures (forall j :: j in w.workers && w.workers[j].phase.HasRead() ==> to < w.workers[j].phase.now + 120) ==> InLease(w, Tick(to))
  {
  }

  // ----- What an attempt that nobody disturbs comes to -----

  function AttemptEvents(k: nat, id: nat, row: Row, pushed: bool): seq<Event> {
    [Dispatch(k, id)] + ([Start(k)] + ([Claim(k)]
    + (if Exhausted(row) then [WriteBackDone(k)]
       else [Answer(k, pushed)] + ([WriteBackDone(k)] + (if Notifies(row, pushed) then [Notify(k)] else [])))))
  }

  /** Main result: an undisturbed attempt at a due row is possible from every state. It tries the socket unless
      the retries are used up, reschedules the row exactly, announces the first failed push, and leaves every
      other row alone. */
  lemma UndisturbedAttempt(w: World, quotas: Quotas, k: nat, id: nat, pushed: bool)
    requires k !in w.workers && w.Live(id) && w.queue.rows[id].nextRetry <= w.clock && Sane(w.queue.rows[id])
    ensures var row := w.queue.rows[id];
            var es := AttemptEvents(k, id, row, pushed);
            && Possible(w, quotas, es)
            && var end := Play(w, quotas, es);
               && end.Live(id) && FollowsSchedule(row, w.clock, pushed, StateOf(end.queue.rows[id])) && SameMessage(row, end.queue.rows[id])
               && end.queue.rows == w.queue.rows[id := end.queue.rows[id]]
               && end.workers == w.workers[k := Worker(id, row, Finished)]
               && end.history == w.history + [ClaimMade(id, row.nextRetry, w.clock)]
                    + (if Exhausted(row) then [] else [PushMade(id, pushed)])
                    + (if row.retryCount == 0 && !pushed then [NoticeSent(id)] else [])
  {
    var row := w.queue.rows[id];
    var w1 := Step(w, quotas, Dispatch(k, id));
    var w2 := Step(w1, quotas, Start(k));
    var w3 := ClaimedWorld(w, k, id, row);
    assert Enabled(w, Dispatch(k, id)) && Enabled(w1, Start(k)) && Enabled(w2, Claim(k)) && Step(w2, quotas, Claim(k)) == w3;
    AttemptFollowsSchedule(row, w.clock, pushed);
    AfterClaim(w, quotas, k, id, row, pushed);
    hide Step, Enabled, WriteBack, FollowsSchedule;
    var rest := if Exhausted(row) then [WriteBackDone(k)]
                else [Answer(k, pushed)] + ([WriteBackDone(k)] + (if Notifies(row, pushed) then [Notify(k)] else []));
    OneMore(w2, quotas, Claim(k), rest);
    OneMore(w1, quotas, Start(k), [Claim(k)] + rest);
    OneMore(w, quotas, Dispatch(k, id), [Start(k)] + ([Claim(k)] + rest));
  }

  function ClaimedWorld(w: World, k: nat, id: nat, row: Row): World
    requires w.Live(id)
  {
    w.(queue := w.queue.(rows := w.queue.rows[id := row.(nextRetry := w.clock + DELIVERY_LOCK_DURATION)]),
       workers := w.workers[k := Worker(id, row, Claimed(w.clock))],
       history := w.history + [ClaimMade(id, row.nextRetry, w.clock)])
  }

  lemma AfterClaim(w: World, quotas: Quotas, k: nat, id: nat, row: Row, pushed: bool)
    requires w.Live(id) && row == w.queue.rows[id]
    ensures var w3 := ClaimedWorld(w, k, id, row);
            var rest := if Exhausted(row) then [WriteBackDone(k)]
                        else [Answer(k, pushed)] + ([WriteBackDone(k)] + (if Notifies(row, pushed) then [Notify(k)] else []));
            && Possible(w3, quotas, rest)
            && Play(w3, quotas, rest) ==
               w3.(queue := w.queue.(rows := w.queue.rows[id := Rewritten(row, WriteBack(row, w.clock, pushed))]),
                   workers := w.workers[k := Worker(id, row, Finished)],
                   history := w3.history + (if Exhausted(row) then [] else [PushMade(id, pushed)])
                              + (if Notifies(row, pushed) then [NoticeSent(id)] else []))
  {
    var w3 := ClaimedWorld(w, k, id, row);
    if Exhausted(row) {
      AfterExhausted(w3, quotas, k);
      OneMore(w3, quotas, WriteBackDone(k), []);
    } else {
      var w4 := Step(w3, quotas, Answer(k, pushed));
      AfterAnswer(w4, quotas, k, pushed);
      OneMore(w3, quotas, Answer(k, pushed), [WriteBackDone(k)] + (if Notifies(row, pushed) then [Notify(k)] else []));
    }
    hide WriteBack, Possible, Play, Notifies;
  }

  lemma AfterExhausted(w: World, quotas: Quotas, k: nat)
    requires k in w.workers && w.workers[k].phase.Claimed? && Exhausted(w.workers[k].seen)
    ensures var a := w.workers[k];
            Enabled(w, WriteBackDone(k)) && Step(w, quotas, WriteBackDone(k)) ==
              w.(queue := Store(w.queue, a.id, WriteBack(a.seen, a.phase.now, false)), workers := w.workers[k := a.(phase := Finished)])
  {
    hide WriteBack;
  }

  lemma AfterAnswer(w: World, quotas: Quotas, k: nat, pushed: bool)
    requires k in w.workers && w.workers[k].phase.Answered? && w.workers[k].phase.pushed == pushed
    ensures var a := w.workers[k];
            var rest := [WriteBackDone(k)] + (if Notifies(a.seen, pushed) then [Notify(k)] else []);
            Possible(w, quotas, rest) && Play(w, quotas, rest) ==
              w.(queue := Store(w.queue, a.id, WriteBack(a.seen, a.phase.now, pushed)),
                 workers := w.workers[k := a.(phase := Finished)],
                 history := w.history + if Notifies(a.seen, pushed) then [NoticeSent(a.id)] else [])
  {
    hide WriteBack, Notifies;
    var a := w.workers[k];
    var w5 := Step(w, quotas, WriteBackDone(k));
    if Notifies(a.seen, pushed) {
      OneMore(w5, quotas, Notify(k), []);
      OneMore(w, quotas, WriteBackDone(k), [Notify(k)] + []);
      assert [Notify(k)] + [] == [Notify(k)];
    } else {
      OneMore(w, quotas, WriteBackDone(k), []);
    }
  }
}
