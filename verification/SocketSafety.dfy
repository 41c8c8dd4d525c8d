/** What every interleaving of the socket threads keeps. */
module SocketSafety {
  import opened Basics
  import opened SocketRegistry

  // ----- Locks -----

  ghost predicate WriterAgrees(writer: Option<nat>, threads: map<nat, Thread>) {
    forall u :: u in threads && HoldsWrite(threads[u]) <==> writer == Some(u)
  }

  ghost predicate ReadersAgree(readers: set<nat>, threads: map<nat, Thread>) {
    forall u :: u in threads && HoldsRead(threads[u]) <==> u in readers
  }

  ghost predicate MutexesAgree(mutexes: map<nat, nat>, threads: map<nat, Thread>) {
    && (forall u :: u in threads && HeldMutex(threads[u]).Some? ==>
          HeldMutex(threads[u]).value in mutexes && mutexes[HeldMutex(threads[u]).value] == u)
    && (forall s :: s in mutexes ==> mutexes[s] in threads && HeldMutex(threads[mutexes[s]]) == Some(s))
  }

  ghost predicate IdsBelow(threads: map<nat, Thread>, nextId: nat) {
    forall u :: u in threads ==> u < nextId
  }

  /** Who holds what is what the locks say, and a writer excludes readers. */
  ghost predicate Locked(st: State) {
    && WriterAgrees(st.writer, st.threads)
    && ReadersAgree(st.readers, st.threads)
    && MutexesAgree(st.mutexes, st.threads)
    && IdsBelow(st.threads, st.nextId)
    && (st.writer.Some? ==> st.readers == {})
  }

  /** The same, for one thread. */
  predicate OwnLocks(st: State, t: nat) {
    && t in st.threads && t < st.nextId
    && (HoldsWrite(st.threads[t]) <==> st.writer == Some(t))
    && (HoldsRead(st.threads[t]) <==> t in st.readers)
  }

  /** Thread `t` went from `a` to `b` and did with the locks what that takes. */
  predicate Moved(st: State, after: State, t: nat, a: Thread, b: Thread) {
    && after.threads == (if a.Handler? && a.stage.Inserting? then st.threads[t := b][st.nextId := Heartbeat(t, Ticking)] else st.threads[t := b])
    && after.nextId == (if a.Handler? && a.stage.Inserting? then st.nextId + 1 else st.nextId)
    && after.cap == st.cap
    && after.writer == (if HoldsWrite(b) then Some(t) else if HoldsWrite(a) then None else st.writer)
    && (HoldsWrite(b) && !HoldsWrite(a) ==> st.RegistryFree())
    && after.readers == (if HoldsRead(a) == HoldsRead(b) then st.readers else if HoldsRead(b) then st.readers + {t} else st.readers - {t})
    && (HoldsRead(b) && !HoldsRead(a) ==> st.writer.None?)
    && MutexesMove(st.mutexes, after.mutexes, t, a, b)
  }

  lemma HandlerMoves(st: State, t: nat, ok: bool)
    requires OwnLocks(st, t) && st.threads[t].Handler?
    requires HandlerStep(st, t, st.threads[t].device, st.threads[t].stage, ok).Some?
    ensures var after := HandlerStep(st, t, st.threads[t].device, st.threads[t].stage, ok).value;
            t in after.threads && Moved(st, after, t, st.threads[t], after.threads[t])
  {
    hide RemoveIf, Evicted;
  }

  lemma HeartbeatMoves(st: State, t: nat, ok: bool)
    requires OwnLocks(st, t) && st.threads[t].Heartbeat?
    requires HeartbeatStep(st, t, st.threads[t].session, st.threads[t].beat, ok).Some?
    ensures var after := HeartbeatStep(st, t, st.threads[t].session, st.threads[t].beat, ok).value;
            t in after.threads && Moved(st, after, t, st.threads[t], after.threads[t])
  {
  }

  lemma DeliveryMoves(st: State, t: nat, ok: bool)
    requires OwnLocks(st, t) && st.threads[t].Deliverer?
    requires DeliveryStep(st, t, st.threads[t].device, st.threads[t].delivery, ok).Some?
    ensures var after := DeliveryStep(st, t, st.threads[t].device, st.threads[t].delivery, ok).value;
            t in after.threads && Moved(st, after, t, st.threads[t], after.threads[t])
  {
    hide RemoveIf, Evicted;
  }

  lemma DisconnectMoves(st: State, t: nat)
    requires OwnLocks(st, t) && st.threads[t].Disconnector?
    requires DisconnectStep(st, t, st.threads[t].device, st.threads[t].disconnection).Some?
    ensures var after := DisconnectStep(st, t, st.threads[t].device, st.threads[t].disconnection).value;
            t in after.threads && Moved(st, after, t, st.threads[t], after.threads[t])
  {
    hide RemoveIf, Evicted;
  }

  lemma ShutdownMoves(st: State, t: nat, pick: Name)
    requires OwnLocks(st, t) && st.threads[t].Shutdown?
    requires ShutdownStep(st, t, st.threads[t].stopping, pick).Some?
    ensures var after := ShutdownStep(st, t, st.threads[t].stopping, pick).value;
            t in after.threads && Moved(st, after, t, st.threads[t], after.threads[t])
  {
  }

  lemma ThreadMoves(st: State, t: nat, ok: bool, pick: Name)
    requires OwnLocks(st, t) && ThreadStep(st, t, ok, pick).Some?
    ensures var after := ThreadStep(st, t, ok, pick).value;
            t in after.threads && Moved(st, after, t, st.threads[t], after.threads[t])
  {
    match st.threads[t]
    case Handler(_, _) => HandlerMoves(st, t, ok);
    case Heartbeat(_, _) => HeartbeatMoves(st, t, ok);
    case Deliverer(_, _) => DeliveryMoves(st, t, ok);
    case Disconnector(_, _) => DisconnectMoves(st, t);
    case Shutdown(_) => ShutdownMoves(st, t, pick);
  }

  lemma WriterStillAgrees(writer: Option<nat>, threads: map<nat, Thread>, t: nat, b: Thread)
    requires WriterAgrees(writer, threads) && t in threads
    requires HoldsWrite(b) && !HoldsWrite(threads[t]) ==> writer.None?
    ensures WriterAgrees(if HoldsWrite(b) then Some(t) else if HoldsWrite(threads[t]) then None else writer, threads[t := b])
  {
  }

  lemma ReadersStillAgree(readers: set<nat>, threads: map<nat, Thread>, t: nat, b: Thread)
    requires ReadersAgree(readers, threads) && t in threads
    ensures ReadersAgree(
              if HoldsRead(threads[t]) == HoldsRead(b) then readers else if HoldsRead(b) then readers + {t} else readers - {t},
              threads[t := b])
  {
  }

  predicate MutexesMove(mutexes: map<nat, nat>, after: map<nat, nat>, t: nat, a: Thread, b: Thread) {
    match (HeldMutex(a), HeldMutex(b))
    case (None, None) => after == mutexes
    case (None, Some(s)) => s !in mutexes && after == mutexes[s := t]
    case (Some(s), None) => after == mutexes - {s}
    case (Some(s), Some(r)) => s == r && after == mutexes
  }

  lemma MutexesStillAgree(mutexes: map<nat, nat>, after: map<nat, nat>, threads: map<nat, Thread>, t: nat, b: Thread)
    requires MutexesAgree(mutexes, threads) && t in threads && MutexesMove(mutexes, after, t, threads[t], b)
    ensures MutexesAgree(after, threads[t := b])
  {
  }

  /** A thread that holds nothing makes no difference. */
  lemma IdleThreadAgrees(st: State, th: Thread)
    requires Locked(st) && !HoldsWrite(th) && !HoldsRead(th) && HeldMutex(th).None?
    ensures Locked(st.Spawn(th))
  {
  }

  lemma MovesKeepLocked(st: State, after: State, t: nat, a: Thread, b: Thread)
    requires Locked(st) && t in st.threads && st.threads[t] == a && Moved(st, after, t, a, b)
    ensures Locked(after)
  {
    var young := Heartbeat(t, Ticking);
    var mid := after.(threads := st.threads[t := b], nextId := st.nextId);
    MovesKeepOldLocked(st, mid, after, t, a, b);
    assert !HoldsWrite(young) && !HoldsRead(young) && HeldMutex(young).None?;
    hide Locked, HoldsWrite, HoldsRead, HeldMutex, MutexesMove;
    if a.Handler? && a.stage.Inserting? {
      IdleThreadAgrees(mid, young);
      assert after == mid.Spawn(young);
    }
  }

  lemma MovesKeepOldLocked(st: State, mid: State, after: State, t: nat, a: Thread, b: Thread)
    requires Locked(st) && t in st.threads && st.threads[t] == a && Moved(st, after, t, a, b)
    requires mid == after.(threads := st.threads[t := b], nextId := st.nextId)
    ensures Locked(mid)
  {
    WriterStillAgrees(st.writer, st.threads, t, b);
    ReadersStillAgree(st.readers, st.threads, t, b);
    MutexesStillAgree(st.mutexes, after.mutexes, st.threads, t, b);
    MovedExcludesReaders(st, after, t, a, b);
    hide WriterAgrees, ReadersAgree, MutexesAgree, HeldMutex, HoldsRead, HoldsWrite;
  }

  lemma MovedExcludesReaders(st: State, after: State, t: nat, a: Thread, b: Thread)
    requires Locked(st) && t in st.threads && st.threads[t] == a && Moved(st, after, t, a, b)
    ensures after.writer.Some? ==> after.readers == {}
  {
  }

  // ----- Sessions -----

  predicate InRegistry(th: Thread, device: Name) {
    && th.Handler? && th.device == device
    && (th.stage.Reading? || th.stage.Closing? || th.stage.Deregistering? || th.stage.Removing?)
  }

  /** Has the handler's session been registered? */
  predicate Joined(th: Thread) {
    th.Handler? && (InRegistry(th, th.device) || th.stage.Draining?)
  }

  /** What a thread about to take a session out of the registry has made sure of. */
  predicate Poised(registry: map<Name, nat>, closed: set<nat>, u: nat, th: Thread) {
    match th
    case Handler(d, stage) =>
      && (stage.Inserting? ==> d in registry ==> registry[d] in closed)
      && (stage.Deregistering? || stage.Removing? || stage.Draining? ==> u in closed)
    case Deliverer(_, delivery) => delivery.WantsDrop? || delivery.Dropping? ==> delivery.s in closed
    case Disconnector(d, stage) => stage.Deleting? ==> d in registry ==> registry[d] in closed
    case _ => true
  }

  /** The ways session `s` of device `d` may leave the registry by a step of thread `t`, now at `a`. */
  predicate MayEvict(a: Thread, t: nat, s: nat, d: Name) {
    match a
    case Handler(d', stage) => d' == d && (if t == s then stage.Removing? else stage.Inserting?)
    case Deliverer(_, delivery) => delivery == Dropping(s)
    case Disconnector(d', stage) => d' == d && stage.Deleting?
    case Shutdown(stage) => stage.Collecting?
    case _ => false
  }

  predicate Stays(registry: map<Name, nat>, after: map<Name, nat>, d: Name) {
    d in registry && d in after && after[d] == registry[d]
  }

  /** What a step of `t` from `a` to `b` does to the registry and to the sessions. */
  ghost predicate Touched(st: State, after: State, t: nat, a: Thread, b: Thread) {
    && st.closed <= after.closed
    && (after.registry != st.registry ==> HoldsWrite(a))
    && (forall d :: d in st.registry && !Stays(st.registry, after.registry, d) ==>
          MayEvict(a, t, st.registry[d], d) && (a.Shutdown? ==> st.registry[d] in Pending(b)))
    && (forall d :: d in after.registry && !Stays(st.registry, after.registry, d) ==>
          after.registry[d] == t && a == Handler(d, Inserting) && b == Handler(d, Reading))
    && (forall s :: s in Pending(a) ==> s in Pending(b) || s in after.closed)
    && (Poised(st.registry, st.closed, t, a) ==> Poised(after.registry, after.closed, t, b))
    && after.tokens == (if a.Handler? && !b.Handler? then st.tokens - 1 else st.tokens)
    && (b.Handler? ==> a.Handler? && b.device == a.device)
    && (Joined(a) && b.Handler? ==> Joined(b))
    && (Joined(b) ==> Joined(a) || (a == Handler(a.device, Inserting) && after.registry == st.registry[a.device := t]))
    && (a.Handler? && InRegistry(a, a.device) ==>
          InRegistry(b, a.device) || after.registry == RemoveIf(st.registry, a.device, t))
  }

  lemma WritingHandlerTouches(st: State, t: nat, ok: bool)
    requires t in st.threads && HoldsWrite(st.threads[t])
    requires t in st.threads && t < st.nextId && st.threads[t].Handler?
    requires HandlerStep(st, t, st.threads[t].device, st.threads[t].stage, ok).Some?
    ensures var after := HandlerStep(st, t, st.threads[t].device, st.threads[t].stage, ok).value;
            t in after.threads && Touched(st, after, t, st.threads[t], after.threads[t])
  {
  }

  lemma OtherHandlerTouches(st: State, t: nat, ok: bool)
    requires t in st.threads && !HoldsWrite(st.threads[t])
    requires t in st.threads && t < st.nextId && st.threads[t].Handler?
    requires HandlerStep(st, t, st.threads[t].device, st.threads[t].stage, ok).Some?
    ensures var after := HandlerStep(st, t, st.threads[t].device, st.threads[t].stage, ok).value;
            t in after.threads && Touched(st, after, t, st.threads[t], after.threads[t])
  {
  }

  lemma HandlerTouches(st: State, t: nat, ok: bool)
    requires t in st.threads && t < st.nextId && st.threads[t].Handler?
    requires HandlerStep(st, t, st.threads[t].device, st.threads[t].stage, ok).Some?
    ensures var after := HandlerStep(st, t, st.threads[t].device, st.threads[t].stage, ok).value;
            t in after.threads && Touched(st, after, t, st.threads[t], after.threads[t])
  {
    hide HandlerStep, Touched;
    if HoldsWrite(st.threads[t]) { WritingHandlerTouches(st, t, ok); } else { OtherHandlerTouches(st, t, ok); }
  }

  lemma HeartbeatTouches(st: State, t: nat, ok: bool)
    requires t in st.threads && st.threads[t].Heartbeat?
    requires HeartbeatStep(st, t, st.threads[t].session, st.threads[t].beat, ok).Some?
    ensures var after := HeartbeatStep(st, t, st.threads[t].session, st.threads[t].beat, ok).value;
            t in after.threads && Touched(st, after, t, st.threads[t], after.threads[t])
  {
  }

  lemma DeliveryTouches(st: State, t: nat, ok: bool)
    requires t in st.threads && st.threads[t].Deliverer?
    requires DeliveryStep(st, t, st.threads[t].device, st.threads[t].delivery, ok).Some?
    ensures var after := DeliveryStep(st, t, st.threads[t].device, st.threads[t].delivery, ok).value;
            t in after.threads && Touched(st, after, t, st.threads[t], after.threads[t])
  {
  }

  lemma DisconnectTouches(st: State, t: nat)
    requires t in st.threads && st.threads[t].Disconnector?
    requires DisconnectStep(st, t, st.threads[t].device, st.threads[t].disconnection).Some?
    ensures var after := DisconnectStep(st, t, st.threads[t].device, st.threads[t].disconnection).value;
            t in after.threads && Touched(st, after, t, st.threads[t], after.threads[t])
  {
  }

  lemma ShutdownTouches(st: State, t: nat, pick: Name)
    requires t in st.threads && st.threads[t].Shutdown?
    requires ShutdownStep(st, t, st.threads[t].stopping, pick).Some?
    ensures var after := ShutdownStep(st, t, st.threads[t].stopping, pick).value;
            t in after.threads && Touched(st, after, t, st.threads[t], after.threads[t])
  {
  }

  lemma ThreadTouches(st: State, t: nat, ok: bool, pick: Name)
    requires t in st.threads && t < st.nextId && ThreadStep(st, t, ok, pick).Some?
    ensures var after := ThreadStep(st, t, ok, pick).value;
            t in after.threads && Touched(st, after, t, st.threads[t], after.threads[t])
  {
    hide Touched;
    match st.threads[t]
    case Handler(_, _) => HandlerTouches(st, t, ok);
    case Heartbeat(_, _) => HeartbeatTouches(st, t, ok);
    case Deliverer(_, _) => DeliveryTouches(st, t, ok);
    case Disconnector(_, _) => DisconnectTouches(st, t);
    case Shutdown(_) => ShutdownTouches(st, t, pick);
  }

  // ----- The invariant -----

  function Frames(threads: map<nat, Thread>): set<nat> {
    set t | t in threads && threads[t].Handler?
  }

  /** Tokens are exactly the live handler frames, and never more than the cap. */
  predicate TokensAgree(st: State) {
    st.tokens == |Frames(st.threads)| <= st.cap
  }

  /** Every registered session is that of a live handler of its device. */
  predicate Registered(registry: map<Name, nat>, threads: map<nat, Thread>) {
    forall d :: d in registry ==> registry[d] in threads && InRegistry(threads[registry[d]], d)
  }

  ghost predicate AllPoised(st: State) {
    forall u :: u in st.threads ==> Poised(st.registry, st.closed, u, st.threads[u])
  }

  predicate IsPending(threads: map<nat, Thread>, s: nat) {
    exists v :: v in threads && s in Pending(threads[v])
  }

  predicate AccountedFor(st: State, u: nat, d: Name) {
    (d in st.registry && st.registry[d] == u) || u in st.closed || IsPending(st.threads, u)
  }

  /** Every live session that has joined is registered, closed, or about to be closed by a shutdown. */
  predicate Accounted(st: State) {
    forall u :: u in st.threads && Joined(st.threads[u]) ==> AccountedFor(st, u, st.threads[u].device)
  }

  ghost predicate Safe(st: State) {
    Locked(st) && TokensAgree(st) && Registered(st.registry, st.threads) && AllPoised(st) && Accounted(st)
  }

  lemma TokensStillAgree(st: State, after: State, t: nat, a: Thread, b: Thread)
    requires TokensAgree(st) && t in st.threads && st.threads[t] == a && IdsBelow(st.threads, st.nextId)
    requires Moved(st, after, t, a, b) && Touched(st, after, t, a, b)
    ensures TokensAgree(after)
  {
    hide HoldsWrite, HoldsRead, MutexesMove, MayEvict, Poised, Pending;
    assert Frames(after.threads) == if a.Handler? && !b.Handler? then Frames(st.threads) - {t} else Frames(st.threads);
  }

  lemma StillRegistered(st: State, after: State, t: nat, a: Thread, b: Thread)
    requires Registered(st.registry, st.threads) && t in st.threads && st.threads[t] == a && IdsBelow(st.threads, st.nextId)
    requires Moved(st, after, t, a, b) && Touched(st, after, t, a, b)
    ensures Registered(after.registry, after.threads)
  {
    hide HoldsWrite, HoldsRead, MutexesMove, MayEvict, Poised, Pending;
    forall d | d in after.registry
      ensures after.registry[d] in after.threads && InRegistry(after.threads[after.registry[d]], d)
    {
      if Stays(st.registry, after.registry, d) {
        assert InRegistry(st.threads[st.registry[d]], d);
      }
    }
  }

  lemma StillPoised(st: State, after: State, t: nat, a: Thread, b: Thread)
    requires AllPoised(st) && WriterAgrees(st.writer, st.threads) && t in st.threads && st.threads[t] == a && IdsBelow(st.threads, st.nextId)
    requires Moved(st, after, t, a, b) && Touched(st, after, t, a, b)
    ensures AllPoised(after)
  {
  }

  lemma StillAccounted(st: State, after: State, t: nat, a: Thread, b: Thread)
    requires Accounted(st) && AllPoised(st) && t in st.threads && st.threads[t] == a && IdsBelow(st.threads, st.nextId)
    requires Moved(st, after, t, a, b) && Touched(st, after, t, a, b)
    ensures Accounted(after)
  {
    forall u | u in after.threads && Joined(after.threads[u])
      ensures AccountedFor(after, u, after.threads[u].device)
    {
      StillAccountedFor(st, after, t, a, b, u);
    }
  }

  lemma StillAccountedFor(st: State, after: State, t: nat, a: Thread, b: Thread, u: nat)
    requires Accounted(st) && AllPoised(st) && t in st.threads && st.threads[t] == a && IdsBelow(st.threads, st.nextId)
    requires Moved(st, after, t, a, b) && Touched(st, after, t, a, b)
    requires u in after.threads && Joined(after.threads[u])
    ensures AccountedFor(after, u, after.threads[u].device)
  {
    hide HoldsWrite, HoldsRead, MutexesMove;
    var d := after.threads[u].device;
    assert u in st.threads && st.threads[u].device == d;
    if Joined(st.threads[u]) {
      assert AccountedFor(st, u, d);
      if d in st.registry && st.registry[d] == u && !Stays(st.registry, after.registry, d) {
        assert MayEvict(a, t, u, d);
        assert Poised(st.registry, st.closed, t, a);
        assert after.threads[t] == b;
        assert a.Shutdown? ==> u in Pending(after.threads[t]);
      } else if IsPending(st.threads, u) {
        var v :| v in st.threads && u in Pending(st.threads[v]);
        assert v in after.threads && (v != t ==> after.threads[v] == st.threads[v]);
      }
    }
  }

  lemma ThreadStepKeepsSafe(st: State, t: nat, ok: bool, pick: Name)
    requires Safe(st) && t in st.threads && ThreadStep(st, t, ok, pick).Some?
    ensures Safe(ThreadStep(st, t, ok, pick).value)
  {
    var after := ThreadStep(st, t, ok, pick).value;
    ThreadMoves(st, t, ok, pick);
    ThreadTouches(st, t, ok, pick);
    var a, b := st.threads[t], after.threads[t];
    hide ThreadStep, Moved, Touched;
    MovesKeepLocked(st, after, t, a, b);
    TokensStillAgree(st, after, t, a, b);
    StillRegistered(st, after, t, a, b);
    StillPoised(st, after, t, a, b);
    StillAccounted(st, after, t, a, b);
  }

  // ----- Runs -----

  /** The thread a new call starts in. */
  function Newcomer(ev: Event): Thread {
    match ev
    case Connect(device) => Handler(device, Upgrading)
    case Deliver(device) => Deliverer(device, WantsLookup)
    case Disconnect(device) => Disconnector(device, WantsDisconnect)
    case Stop => Shutdown(WantsCollect)
    case Go(_, _, _) => Finished
  }

  lemma ArrivalShape(st: State, ev: Event)
    requires !ev.Go? && Next(st, ev) != Some(st)
    ensures Step(st, ev) == st.(tokens := if ev.Connect? then st.tokens + 1 else st.tokens).Spawn(Newcomer(ev))
    ensures ev.Connect? ==> st.tokens < st.cap
    ensures var th := Newcomer(ev);
            && (th.Handler? <==> ev.Connect?) && !HoldsWrite(th) && !HoldsRead(th) && HeldMutex(th).None?
            && !Joined(th) && Poised(st.registry, st.closed, st.nextId, th)
  {
  }

  lemma ArrivalKeepsSafe(st: State, ev: Event)
    requires Safe(st) && !ev.Go? && Next(st, ev) != Some(st)
    ensures Safe(Step(st, ev))
  {
    ArrivalShape(st, ev);
    var th, after := Newcomer(ev), Step(st, ev);
    hide Step, Next, Newcomer, Joined, Poised, HoldsWrite, HoldsRead, HeldMutex;
    assert st.nextId !in st.threads by { assert IdsBelow(st.threads, st.nextId); }
    assert Locked(st.(tokens := after.tokens));
    IdleThreadAgrees(st.(tokens := after.tokens), th);
    NewcomerIsHarmless(st, after, th);
    hide Locked, Registered, AllPoised, Accounted;
    assert Frames(after.threads) == if th.Handler? then Frames(st.threads) + {st.nextId} else Frames(st.threads);
  }

  lemma NewcomerIsHarmless(st: State, after: State, th: Thread)
    requires Registered(st.registry, st.threads) && AllPoised(st) && Accounted(st) && st.nextId !in st.threads
    requires after == st.(tokens := after.tokens).Spawn(th) && !Joined(th) && Poised(st.registry, st.closed, st.nextId, th)
    ensures Registered(after.registry, after.threads) && AllPoised(after) && Accounted(after)
  {
    hide Poised, Pending, InRegistry;
    forall u | u in after.threads && Joined(after.threads[u])
      ensures AccountedFor(after, u, after.threads[u].device)
    {
      assert AccountedFor(st, u, st.threads[u].device);
      if IsPending(st.threads, u) {
        var v :| v in st.threads && u in Pending(st.threads[v]);
        assert v in after.threads && after.threads[v] == st.threads[v];
      }
    }
  }

  lemma StepKeepsSafe(st: State, ev: Event)
    requires Safe(st)
    ensures Safe(Step(st, ev))
  {
    hide Safe;
    if ev.Go? {
      if ev.t in st.threads && ThreadStep(st, ev.t, ev.ok, ev.pick).Some? { ThreadStepKeepsSafe(st, ev.t, ev.ok, ev.pick); }
    } else if Next(st, ev) != Some(st) {
      ArrivalKeepsSafe(st, ev);
    }
  }

  /** Main result: under any interleaving, from the start, the locks mean what they say, tokens are the live
      handler frames and within the cap, registered sessions belong to live handlers of their device, and
      every live session that has joined is registered, closed or about to be closed by a shutdown. */
  lemma {:induction false} RunKeepsSafe(cap: nat, evs: seq<Event>)
    ensures Safe(Run(Start(cap), evs)) && Run(Start(cap), evs).cap == cap
    decreases |evs|
  {
    if evs == [] {
      assert Frames(map[]) == {};
    } else {
      RunKeepsSafe(cap, evs[..|evs| - 1]);
      StepKeepsSafe(Run(Start(cap), evs[..|evs| - 1]), evs[|evs| - 1]);
      StepKeepsCap(Run(Start(cap), evs[..|evs| - 1]), evs[|evs| - 1]);
      hide Safe, Step;
    }
  }

  lemma StepKeepsCap(st: State, ev: Event)
    requires Safe(st)
    ensures Step(st, ev).cap == st.cap
  {
    if ev.Go? && ev.t in st.threads && ThreadStep(st, ev.t, ev.ok, ev.pick).Some? {
      assert OwnLocks(st, ev.t) by { hide HoldsWrite, HoldsRead; }
      ThreadMoves(st, ev.t, ev.ok, ev.pick);
      hide ThreadStep;
    }
  }
}
