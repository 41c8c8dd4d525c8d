/** How much work a row can cause. Within the lease, and when write-backs succeed, every row is tried,
    pushed and announced a bounded number of times and then parked for good. */
module DeliveryBudget {
  import opened Basics
  import opened DeliveryQueue
  import opened DeliveryWorkers
  import opened DeliveryProtocol

  datatype Kind = Attempts | Pushes | Notices

  predicate Counts(f: Fact, kind: Kind, id: nat) {
    match kind
    case Attempts => f.PushMade? && f.id == id
    case Pushes => f.PushMade? && f.id == id && f.pushed
    case Notices => f.NoticeSent? && f.id == id
  }

  function Count(h: seq<Fact>, kind: Kind, id: nat): nat {
    if h == [] then 0
    else Count(h[..|h| - 1], kind, id) + if Counts(h[|h| - 1], kind, id) then 1 else 0
  }

  lemma CountAppend(h: seq<Fact>, f: Fact, kind: Kind, id: nat)
    ensures Count(h + [f], kind, id) == Count(h, kind, id) + if Counts(f, kind, id) then 1 else 0
  {
  }

  /** The pushes that can lie behind a row in this retry state. */
  function PushBound(row: Row): int {
    row.retryCount + if row.ackDeadline > 0 then 1 else 0
  }

  lemma PushBoundGrows(row: Row, now: int, pushed: bool)
    requires Sane(row) && now >= 0
    ensures PushBound(row) + (if !Exhausted(row) && pushed then 1 else 0)
            <= PushBound(Rewritten(row, WriteBack(row, now, pushed))) <= 21
    ensures Notifies(row, pushed) ==> WriteBack(row, now, pushed).retryCount == 1
    ensures WriteBack(row, now, pushed).retryCount >= row.retryCount
  {
  }

  /** The worker at key `k`, if it holds row `id`. */
  predicate HoldsRow(workers: map<nat, Worker>, k: nat, id: nat) {
    k in workers && workers[k].id == id && workers[k].Holds()
  }

  ghost predicate AnsweredFor(workers: map<nat, Worker>, id: nat) {
    exists k :: k in workers && HoldsRow(workers, k, id) && workers[k].phase.Answered?
  }

  /** Attempts and pushes are covered by the progress of the row, or of the snapshot in work. */
  ghost predicate Covered(row: Option<Row>, workers: map<nat, Worker>, id: nat, attempts: nat, pushes: nat) {
    && attempts <= 41 && pushes <= 21
    && (row.Some? && !AnsweredFor(workers, id) ==> attempts <= Progress(row.value) && pushes <= PushBound(row.value))
    && (forall k :: HoldsRow(workers, k, id) ==> CoveredByWork(workers[k], attempts, pushes))
  }

  predicate CoveredByWork(a: Worker, attempts: nat, pushes: nat) {
    if a.phase.Answered? then
      attempts <= Progress(a.seen) + 1 && pushes <= PushBound(a.seen) + if a.phase.pushed then 1 else 0
    else attempts <= Progress(a.seen) && pushes <= PushBound(a.seen)
  }

  ghost predicate SameHolders(workers: map<nat, Worker>, workers': map<nat, Worker>, id: nat) {
    forall k :: HoldsRow(workers, k, id) || HoldsRow(workers', k, id) ==>
                  k in workers && k in workers' && workers'[k] == workers[k]
  }

  lemma SameHoldersCovered(row: Option<Row>, workers: map<nat, Worker>, workers': map<nat, Worker>, id: nat, attempts: nat, pushes: nat)
    requires Covered(row, workers, id, attempts, pushes)
    requires SameHolders(workers, workers', id)
    ensures Covered(row, workers', id, attempts, pushes)
  {
  }

  lemma AnswerCovered(row: Option<Row>, workers: map<nat, Worker>, k: nat, id: nat, pushed: bool, attempts: nat, pushes: nat)
    requires Covered(row, workers, id, attempts, pushes)
    requires HoldsRow(workers, k, id) && workers[k].phase.Claimed? && !Exhausted(workers[k].seen) && Sane(workers[k].seen)
    requires forall j :: HoldsRow(workers, j, id) ==> j == k
    ensures Covered(row, workers[k := workers[k].(phase := Answered(workers[k].phase.now, pushed))], id,
                    attempts + 1, pushes + if pushed then 1 else 0)
  {
    var workers' := workers[k := workers[k].(phase := Answered(workers[k].phase.now, pushed))];
    assert k in workers' && HoldsRow(workers', k, id) && workers'[k].phase.Answered?;
    forall j | HoldsRow(workers', j, id) ensures j == k {
      assert j != k ==> HoldsRow(workers, j, id);
    }
  }

  lemma ClaimCovered(row: Row, row': Row, workers: map<nat, Worker>, k: nat, now: int, attempts: nat, pushes: nat)
    requires k in workers && Covered(Some(row), workers, workers[k].id, attempts, pushes)
    requires Unchanged(row, workers[k].seen) && Unchanged(row, row')
    requires forall j :: !HoldsRow(workers, j, workers[k].id)
    ensures Covered(Some(row'), workers[k := workers[k].(phase := Claimed(now))], workers[k].id, attempts, pushes)
  {
  }

  /** After the write-back no one holds the row, and its new state covers what was done. */
  lemma WriteBackCovered(row: Option<Row>, workers: map<nat, Worker>, k: nat, id: nat, next: Phase, attempts: nat, pushes: nat)
    requires Covered(row, workers, id, attempts, pushes)
    requires HoldsRow(workers, k, id) && (forall j :: HoldsRow(workers, j, id) ==> j == k)
    requires var a := workers[k];
             && MayWriteBack(a) && Sane(a.seen) && a.phase.now >= 0 && (a.phase.Answered? ==> !Exhausted(a.seen))
             && (row.Some? ==> Unchanged(row.value, a.seen))
    requires next.Notifying? || next.Finished?
    ensures var a := workers[k];
            var state := WriteBack(a.seen, a.phase.now, a.phase.Answered? && a.phase.pushed);
            Covered(if row.Some? then Some(Rewritten(row.value, state)) else None,
                    workers[k := a.(phase := next)], id, attempts, pushes)
  {
  }

  // ----- Notices -----

  predicate NotifiesRow(workers: map<nat, Worker>, k: nat, id: nat) {
    k in workers && workers[k].id == id && workers[k].phase.Notifying?
  }

  /** The first failure lies behind: neither the row nor any snapshot in work has a zero retry count. */
  ghost predicate PastFirst(row: Option<Row>, workers: map<nat, Worker>, id: nat) {
    && (row.Some? ==> row.value.retryCount >= 1)
    && (forall k :: HoldsRow(workers, k, id) ==> workers[k].seen.retryCount >= 1)
  }

  /** At most one notice, sent or about to be, and only once the first failure lies behind. */
  ghost predicate Announced(row: Option<Row>, workers: map<nat, Worker>, id: nat, notices: nat) {
    && notices <= 1
    && (notices == 1 ==> PastFirst(row, workers, id))
    && (forall k :: NotifiesRow(workers, k, id) ==> notices == 0 && PastFirst(row, workers, id))
    && (forall j, k :: NotifiesRow(workers, j, id) && NotifiesRow(workers, k, id) ==> j == k)
  }

  ghost predicate SameNotifiers(workers: map<nat, Worker>, workers': map<nat, Worker>, id: nat) {
    forall k :: NotifiesRow(workers', k, id) ==> NotifiesRow(workers, k, id)
  }

  lemma SameNotifiersAnnounced(row: Option<Row>, workers: map<nat, Worker>, workers': map<nat, Worker>, id: nat, notices: nat)
    requires Announced(row, workers, id, notices)
    requires SameHolders(workers, workers', id) && SameNotifiers(workers, workers', id)
    ensures Announced(row, workers', id, notices)
  {
  }

  lemma ClaimAnnounced(row: Row, row': Row, workers: map<nat, Worker>, k: nat, now: int, notices: nat)
    requires k in workers && workers[k].phase.Ready? && Announced(Some(row), workers, workers[k].id, notices)
    requires Unchanged(row, workers[k].seen) && Unchanged(row, row')
    ensures Announced(Some(row'), workers[k := workers[k].(phase := Claimed(now))], workers[k].id, notices)
  {
    var workers' := workers[k := workers[k].(phase := Claimed(now))];
    forall j ensures NotifiesRow(workers', j, workers[k].id) ==> NotifiesRow(workers, j, workers[k].id) {
    }
    forall j | j != k ensures HoldsRow(workers', j, workers[k].id) ==> HoldsRow(workers, j, workers[k].id) {
    }
  }

  lemma WriteBackAnnounced(row: Option<Row>, workers: map<nat, Worker>, k: nat, id: nat, notices: nat)
    requires Announced(row, workers, id, notices)
    requires HoldsRow(workers, k, id) && (forall j :: HoldsRow(workers, j, id) ==> j == k)
    requires MayWriteBack(workers[k]) && Sane(workers[k].seen) && workers[k].phase.now >= 0
    requires row.Some? ==> Unchanged(row.value, workers[k].seen)
    ensures var a := workers[k];
            var state := WriteBack(a.seen, a.phase.now, a.phase.Answered? && a.phase.pushed);
            Announced(if row.Some? then Some(Rewritten(row.value, state)) else None,
                      workers[k := a.(phase := AfterWriteBack(a))], id, notices)
  {
    var a, workers' := workers[k], workers[k := workers[k].(phase := AfterWriteBack(workers[k]))];
    PushBoundGrows(a.seen, a.phase.now, a.phase.Answered? && a.phase.pushed);
    hide WriteBack;
    forall j ensures !HoldsRow(workers', j, id) {
      assert HoldsRow(workers', j, id) ==> HoldsRow(workers, j, id);
    }
    forall j | j != k ensures NotifiesRow(workers', j, id) ==> NotifiesRow(workers, j, id) {
    }
    assert NotifiesRow(workers', k, id) ==> a.seen.retryCount == 0;
  }

  lemma NotifyAnnounced(row: Option<Row>, workers: map<nat, Worker>, k: nat, notices: nat)
    requires k in workers && workers[k].phase.Notifying? && Announced(row, workers, workers[k].id, notices)
    ensures Announced(row, workers[k := workers[k].(phase := Finished)], workers[k].id, notices + 1)
  {
    var id, workers' := workers[k].id, workers[k := workers[k].(phase := Finished)];
    assert NotifiesRow(workers, k, id);
    forall j ensures !NotifiesRow(workers', j, id) {
      assert NotifiesRow(workers', j, id) ==> NotifiesRow(workers, j, id);
    }
    forall j ensures HoldsRow(workers', j, id) ==> HoldsRow(workers, j, id) {
    }
  }

  // ----- One step keeps the budget -----

  function RowOf(w: World, id: nat): Option<Row> {
    if w.Live(id) then Some(w.queue.rows[id]) else None
  }

  ghost predicate BudgetOf(w: World, id: nat) {
    && Covered(RowOf(w, id), w.workers, id, Count(w.history, Attempts, id), Count(w.history, Pushes, id))
    && Announced(RowOf(w, id), w.workers, id, Count(w.history, Notices, id))
  }

  ghost predicate UnusedOk(w: World, id: nat) {
    id >= w.queue.nextId ==> forall kind :: Count(w.history, kind, id) == 0
  }

  ghost predicate Budgeted(w: World) {
    forall id: nat :: BudgetOf(w, id) && UnusedOk(w, id)
  }

  /** The only holder of its row. */
  lemma HoldsAlone(w: World, k: nat)
    requires Safe(w) && k in w.workers && w.workers[k].Holds()
    ensures forall j :: HoldsRow(w.workers, j, w.workers[k].id) ==> j == k
  {
  }

  /** Nothing about row `id` changes. */
  lemma Untouched(w: World, w': World, id: nat)
    requires BudgetOf(w, id) && RowOf(w', id) == RowOf(w, id)
    requires SameHolders(w.workers, w'.workers, id) && SameNotifiers(w.workers, w'.workers, id)
    requires forall kind :: Count(w'.history, kind, id) == Count(w.history, kind, id)
    ensures BudgetOf(w', id)
  {
    SameHoldersCovered(RowOf(w, id), w.workers, w'.workers, id, Count(w.history, Attempts, id), Count(w.history, Pushes, id));
    SameNotifiersAnnounced(RowOf(w, id), w.workers, w'.workers, id, Count(w.history, Notices, id));
  }

  /** The fact a step adds to the history, if any, is about the row of its worker. */
  lemma StepCounts(w: World, quotas: Quotas, e: Event, kind: Kind, id: nat)
    requires Enabled(w, e)
    ensures var h := Step(w, quotas, e).history;
            Count(h, kind, id) == Count(w.history, kind, id)
              + if h != w.history && Counts(h[|h| - 1], kind, id) then 1 else 0
  {
  }

  lemma StepKeepsUnused(w: World, quotas: Quotas, e: Event, id: nat)
    requires Safe(w) && Enabled(w, e) && UnusedOk(w, id)
    ensures UnusedOk(Step(w, quotas, e), id)
  {
    var w' := Step(w, quotas, e);
    if e.Outside? {
      OutsideEffect(w.queue, quotas, e.statement);
    }
    hide Execute, Written;
    if id >= w'.queue.nextId {
      forall kind ensures Count(w'.history, kind, id) == 0 {
        StepCounts(w, quotas, e, kind, id);
        if w'.history != w.history {
          assert WorkerOk(w, w.workers[e.who]);
        }
      }
    }
  }

  lemma QuietKeepsBudget(w: World, quotas: Quotas, e: Event, id: nat)
    requires Enabled(w, e) && BudgetOf(w, id) && (e.Tick? || e.Dispatch? || e.Start?)
    ensures BudgetOf(Step(w, quotas, e), id)
  {
    Untouched(w, Step(w, quotas, e), id);
  }

  lemma ClaimKeepsBudget(w: World, quotas: Quotas, k: nat, id: nat)
    requires Safe(w) && Enabled(w, Claim(k)) && BudgetOf(w, id)
    ensures BudgetOf(Step(w, quotas, Claim(k)), id)
  {
    var a, w' := w.workers[k], Step(w, quotas, Claim(k));
    forall kind ensures Count(w'.history, kind, id) == Count(w.history, kind, id) {
      StepCounts(w, quotas, Claim(k), kind, id);
    }
    if w'.workers[k].phase.Claimed? && a.id == id {
      ClaimFindsRowUnchanged(w, k);
      var row, row' := w.queue.rows[id], w'.queue.rows[id];
      hide Safe, Covered, Announced;
      ClaimCovered(row, row', w.workers, k, a.phase.now, Count(w.history, Attempts, id), Count(w.history, Pushes, id));
      ClaimAnnounced(row, row', w.workers, k, a.phase.now, Count(w.history, Notices, id));
    } else {
      hide Safe, BudgetOf;
      Untouched(w, w', id);
    }
  }

  lemma AnswerAddsToBudget(w: World, w': World, k: nat, pushed: bool, id: nat)
    requires BudgetOf(w, id) && k in w.workers
    requires var a := w.workers[k];
             && a.phase.Claimed? && !Exhausted(a.seen) && Sane(a.seen)
             && (forall j :: HoldsRow(w.workers, j, a.id) ==> j == k)
             && w' == w.(workers := w.workers[k := a.(phase := Answered(a.phase.now, pushed))],
                         history := w.history + [PushMade(a.id, pushed)])
    ensures BudgetOf(w', id)
  {
    var a := w.workers[k];
    CountAppend(w.history, PushMade(a.id, pushed), Attempts, id);
    CountAppend(w.history, PushMade(a.id, pushed), Pushes, id);
    CountAppend(w.history, PushMade(a.id, pushed), Notices, id);
    hide Covered, Count;
    if a.id == id {
      AnswerCovered(RowOf(w, id), w.workers, k, id, pushed, Count(w.history, Attempts, id), Count(w.history, Pushes, id));
      forall j ensures HoldsRow(w'.workers, j, id) ==> HoldsRow(w.workers, j, id) && w'.workers[j].seen == w.workers[j].seen {
      }
      forall j ensures NotifiesRow(w'.workers, j, id) ==> NotifiesRow(w.workers, j, id) {
      }
    } else {
      SameHoldersCovered(RowOf(w, id), w.workers, w'.workers, id, Count(w.history, Attempts, id), Count(w.history, Pushes, id));
      SameNotifiersAnnounced(RowOf(w, id), w.workers, w'.workers, id, Count(w.history, Notices, id));
    }
  }

  lemma AnswerKeepsBudget(w: World, quotas: Quotas, k: nat, pushed: bool, id: nat)
    requires Safe(w) && Enabled(w, Answer(k, pushed)) && BudgetOf(w, id)
    ensures BudgetOf(Step(w, quotas, Answer(k, pushed)), id)
  {
    assert WorkerOk(w, w.workers[k]);
    HoldsAlone(w, k);
    hide Safe, BudgetOf;
    AnswerAddsToBudget(w, Step(w, quotas, Answer(k, pushed)), k, pushed, id);
  }

  lemma WriteBackKeepsBudget(w: World, quotas: Quotas, k: nat, id: nat)
    requires Safe(w) && Enabled(w, WriteBackDone(k)) && BudgetOf(w, id)
    ensures BudgetOf(Step(w, quotas, WriteBackDone(k)), id)
  {
    var a, w' := w.workers[k], Step(w, quotas, WriteBackDone(k));
    if a.id == id {
      assert WorkerOk(w, a);
      HoldsAlone(w, k);
      hide Safe, Covered, Announced, WriteBack;
      WriteBackCovered(RowOf(w, id), w.workers, k, id, AfterWriteBack(a), Count(w.history, Attempts, id), Count(w.history, Pushes, id));
      WriteBackAnnounced(RowOf(w, id), w.workers, k, id, Count(w.history, Notices, id));
    } else {
      hide Safe, BudgetOf, WriteBack;
      Untouched(w, w', id);
    }
  }

  lemma NoticeAddsToBudget(w: World, w': World, k: nat, id: nat)
    requires BudgetOf(w, id) && k in w.workers && w.workers[k].phase.Notifying?
    requires w' == w.(workers := w.workers[k := w.workers[k].(phase := Finished)],
                      history := w.history + [NoticeSent(w.workers[k].id)])
    ensures BudgetOf(w', id)
  {
    var a := w.workers[k];
    CountAppend(w.history, NoticeSent(a.id), Attempts, id);
    CountAppend(w.history, NoticeSent(a.id), Pushes, id);
    CountAppend(w.history, NoticeSent(a.id), Notices, id);
    hide Count, Covered, Announced;
    NoticeCovered(RowOf(w, id), w.workers, k, id, Count(w.history, Attempts, id), Count(w.history, Pushes, id));
    NoticeAnnounced(RowOf(w, id), w.workers, k, id, Count(w.history, Notices, id));
    assert RowOf(w', id) == RowOf(w, id);
  }

  lemma NoticeCovered(row: Option<Row>, workers: map<nat, Worker>, k: nat, id: nat, attempts: nat, pushes: nat)
    requires k in workers && workers[k].phase.Notifying? && Covered(row, workers, id, attempts, pushes)
    ensures Covered(row, workers[k := workers[k].(phase := Finished)], id, attempts, pushes)
  {
    SameHoldersCovered(row, workers, workers[k := workers[k].(phase := Finished)], id, attempts, pushes);
    hide Covered;
  }

  lemma NoticeAnnounced(row: Option<Row>, workers: map<nat, Worker>, k: nat, id: nat, notices: nat)
    requires k in workers && workers[k].phase.Notifying? && Announced(row, workers, id, notices)
    ensures Announced(row, workers[k := workers[k].(phase := Finished)], id, notices + if workers[k].id == id then 1 else 0)
  {
    if workers[k].id == id {
      NotifyAnnounced(row, workers, k, notices);
    } else {
      SameNotifiersAnnounced(row, workers, workers[k := workers[k].(phase := Finished)], id, notices);
    }
    hide Announced;
  }

  lemma NotifyKeepsBudget(w: World, quotas: Quotas, k: nat, id: nat)
    requires Enabled(w, Notify(k)) && BudgetOf(w, id)
    ensures BudgetOf(Step(w, quotas, Notify(k)), id)
  {
    hide BudgetOf;
    NoticeAddsToBudget(w, Step(w, quotas, Notify(k)), k, id);
  }

  lemma OutsideKeepsBudget(w: World, quotas: Quotas, s: Statement, id: nat)
    requires Safe(w) && Enabled(w, Outside(s)) && BudgetOf(w, id) && UnusedOk(w, id)
    ensures BudgetOf(Step(w, quotas, Outside(s)), id)
  {
    var w' := Step(w, quotas, Outside(s));
    OutsideEffect(w.queue, quotas, s);
    hide Execute;
    if id < w.queue.nextId && w'.Live(id) {
      assert RowOf(w', id) == RowOf(w, id);
    } else if w'.Live(id) {
      forall k | k in w.workers ensures w.workers[k].id != id {
        assert WorkerOk(w, w.workers[k]);
      }
    }
  }

  lemma StepKeepsBudget(w: World, quotas: Quotas, e: Event)
    requires Safe(w) && Budgeted(w) && Enabled(w, e) && !e.WriteBackLost?
    ensures Budgeted(Step(w, quotas, e))
  {
    forall id: nat ensures BudgetOf(Step(w, quotas, e), id) && UnusedOk(Step(w, quotas, e), id) {
      assert BudgetOf(w, id) && UnusedOk(w, id);
      hide BudgetOf, UnusedOk, Step, Safe;
      StepKeepsUnused(w, quotas, e, id);
      match e
      case Claim(k) => ClaimKeepsBudget(w, quotas, k, id);
      case Answer(k, pushed) => AnswerKeepsBudget(w, quotas, k, pushed, id);
      case WriteBackDone(k) => WriteBackKeepsBudget(w, quotas, k, id);
      case Notify(k) => NotifyKeepsBudget(w, quotas, k, id);
      case Outside(s) => OutsideKeepsBudget(w, quotas, s, id);
      case _ => QuietKeepsBudget(w, quotas, e, id);
    }
  }

  predicate NoneLost(es: seq<Event>) {
    forall e :: e in es ==> !e.WriteBackLost?
  }

  lemma {:induction false} RunKeepsBudget(w: World, quotas: Quotas, es: seq<Event>)
    requires Safe(w) && Budgeted(w) && ValidRun(w, quotas, es) && NoneLost(es)
    ensures Budgeted(RunEvents(w, quotas, es))
    decreases |es|
  {
    if es != [] {
      assert es[0] in es;
      StepKeepsSafe(w, quotas, es[0]);
      StepKeepsBudget(w, quotas, es[0]);
      hide Safe, Budgeted, Step, Enabled;
      RunKeepsBudget(Step(w, quotas, es[0]), quotas, es[1..]);
    }
  }

  /** Main result: over any run in the lease whose write-backs succeed, a row is offered to the session
      registry at most 41 times, pushed at most 21 times and announced at most once, and its retry count
      stays between 0 and 21. */
  lemma RedeliveryIsBounded(w: World, quotas: Quotas, es: seq<Event>, id: nat)
    requires Fresh(w) && ValidRun(w, quotas, es) && NoneLost(es)
    ensures var end := RunEvents(w, quotas, es);
            && Count(end.history, Attempts, id) <= 41
            && Count(end.history, Pushes, id) <= 21
            && Count(end.history, Notices, id) <= 1
            && (end.Live(id) ==> 0 <= end.queue.rows[id].retryCount <= 21)
  {
    StartsInBudget(w);
    hide Budgeted, Fresh;
    RunKeepsSafe(w, quotas, es);
    RunKeepsBudget(w, quotas, es);
    EndsInBudget(RunEvents(w, quotas, es), id);
  }

  lemma StartsInBudget(w: World)
    requires Fresh(w)
    ensures Safe(w) && Budgeted(w)
  {
  }

  lemma EndsInBudget(end: World, id: nat)
    requires Safe(end) && Budgeted(end)
    ensures Count(end.history, Attempts, id) <= 41 && Count(end.history, Pushes, id) <= 21
    ensures Count(end.history, Notices, id) <= 1
    ensures end.Live(id) ==> 0 <= end.queue.rows[id].retryCount <= 21
  {
    assert BudgetOf(end, id) && (end.Live(id) ==> Sane(end.queue.rows[id]));
  }

  // ----- Parked rows -----

  /** A row that has used up its retries, in the table and in every snapshot in work. */
  ghost predicate Parked(w: World, id: nat) {
    && id < w.queue.nextId
    && (w.Live(id) ==> w.queue.rows[id].retryCount == MAXIMUM_RETRY_ATTEMPTS + 1)
    && (forall k :: HoldsRow(w.workers, k, id) ==> w.workers[k].seen.retryCount == MAXIMUM_RETRY_ATTEMPTS + 1)
  }

  lemma ClaimKeepsParked(w: World, quotas: Quotas, k: nat, id: nat)
    requires Safe(w) && Enabled(w, Claim(k)) && Parked(w, id)
    ensures Parked(Step(w, quotas, Claim(k)), id)
  {
  }

  lemma WriteBackKeepsParked(w: World, quotas: Quotas, k: nat, id: nat)
    requires Safe(w) && Enabled(w, WriteBackDone(k)) && Parked(w, id)
    ensures Parked(Step(w, quotas, WriteBackDone(k)), id)
  {
  }

  lemma StepKeepsParked(w: World, quotas: Quotas, e: Event, id: nat)
    requires Safe(w) && Enabled(w, e) && Parked(w, id)
    ensures Parked(Step(w, quotas, e), id)
    ensures Count(Step(w, quotas, e).history, Attempts, id) == Count(w.history, Attempts, id)
  {
    var w' := Step(w, quotas, e);
    StepCounts(w, quotas, e, Attempts, id);
    if e.Claim? {
      ClaimKeepsParked(w, quotas, e.who, id);
    } else if e.WriteBackDone? {
      WriteBackKeepsParked(w, quotas, e.who, id);
    } else if e.Outside? {
      OutsideEffect(w.queue, quotas, e.statement);
      hide Execute;
    } else {
      if e.Answer? {
        assert WorkerOk(w, w.workers[e.who]) && HoldsRow(w.workers, e.who, w.workers[e.who].id);
      }
      hide Count;
      forall j | HoldsRow(w'.workers, j, id) ensures HoldsRow(w.workers, j, id) && w'.workers[j].seen == w.workers[j].seen {
      }
    }
  }

  /** Main result: a row that has reached the last retry count keeps it while it lives, and is never
      offered to the session registry again. */
  lemma {:induction false} ParkedForGood(w: World, quotas: Quotas, es: seq<Event>, id: nat)
    requires Safe(w) && Parked(w, id) && ValidRun(w, quotas, es)
    ensures Parked(RunEvents(w, quotas, es), id)
    ensures Count(RunEvents(w, quotas, es).history, Attempts, id) == Count(w.history, Attempts, id)
    decreases |es|
  {
    if es != [] {
      StepKeepsSafe(w, quotas, es[0]);
      StepKeepsParked(w, quotas, es[0], id);
      hide Safe, Parked, Step, Enabled, Count;
      ParkedForGood(Step(w, quotas, es[0]), quotas, es[1..], id);
    }
  }

  /** The retry count of a live row alone tells that it is parked. */
  lemma LastRetryIsParked(w: World, id: nat)
    requires Safe(w) && w.Live(id) && w.queue.rows[id].retryCount == MAXIMUM_RETRY_ATTEMPTS + 1
    ensures Parked(w, id)
  {
  }
}
