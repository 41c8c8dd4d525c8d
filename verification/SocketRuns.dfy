/** What the invariant of the socket threads is for. */
module SocketRuns {
  import opened Basics
  import opened SocketRegistry
  import opened SocketSafety

  // ----- The cap -----

  /** Main result: two devices never share a session, and there are no more registered sessions than
      tokens, hence never more than the cap. */
  lemma RegistryWithinCap(cap: nat, evs: seq<Event>)
    ensures var st := Run(Start(cap), evs);
            && (forall d, e :: d in st.registry && e in st.registry && st.registry[d] == st.registry[e] ==> d == e)
            && |st.registry| <= st.tokens <= cap
  {
    RunKeepsSafe(cap, evs);
    var st := Run(Start(cap), evs);
    hide Run, Locked, Accounted, AllPoised;
    assert forall d :: d in st.registry ==> InRegistry(st.threads[st.registry[d]], d);
    NoMoreThanItsValues(st.registry, Frames(st.threads));
  }

  lemma {:induction false} NoMoreThanItsValues(registry: map<Name, nat>, frames: set<nat>)
    requires forall d :: d in registry ==> registry[d] in frames
    requires forall d, e :: d in registry && e in registry && registry[d] == registry[e] ==> d == e
    ensures |registry| <= |frames|
    decreases |frames|
  {
    if registry != map[] {
      var d :| d in registry;
      NoMoreThanItsValues(registry - {d}, frames - {registry[d]});
      assert registry == (registry - {d})[d := registry[d]];
    }
  }

  // ----- Leaving the registry -----

  /** Main result: a registered session leaves the registry only by its own handler's cleanup, its
      own failed write, a newer connection of the device, a disconnection of the device or a shutdown; and it
      is closed or about to be closed when it leaves. */
  lemma EvictionHasACause(st: State, ev: Event, d: Name)
    requires Safe(st) && d in st.registry && !Stays(st.registry, Step(st, ev).registry, d)
    ensures ev.Go? && ev.t in st.threads && MayEvict(st.threads[ev.t], ev.t, st.registry[d], d)
    ensures st.registry[d] in Step(st, ev).closed || IsPending(Step(st, ev).threads, st.registry[d])
  {
    StepTouches(st, ev);
    var s := st.registry[d];
    assert InRegistry(st.threads[s], d) by { assert Registered(st.registry, st.threads); }
    assert Poised(st.registry, st.closed, ev.t, st.threads[ev.t]) by { assert AllPoised(st); }
    hide Step, Safe;
    if st.threads[ev.t].Shutdown? {
      assert s in Pending(Step(st, ev).threads[ev.t]);
    }
  }

  lemma StepTouches(st: State, ev: Event)
    requires Safe(st)
    ensures Step(st, ev).registry != st.registry ==> ev.Go?
    ensures ev.Go? && Step(st, ev) != st ==>
              ev.t in st.threads && ev.t in Step(st, ev).threads
              && Touched(st, Step(st, ev), ev.t, st.threads[ev.t], Step(st, ev).threads[ev.t])
              && Moved(st, Step(st, ev), ev.t, st.threads[ev.t], Step(st, ev).threads[ev.t])
  {
    if ev.Go? && ev.t in st.threads && ThreadStep(st, ev.t, ev.ok, ev.pick).Some? {
      assert OwnLocks(st, ev.t) by { hide HoldsWrite, HoldsRead; }
      ThreadTouches(st, ev.t, ev.ok, ev.pick);
      ThreadMoves(st, ev.t, ev.ok, ev.pick);
      hide ThreadStep, Touched, Moved;
    }
  }

  /** Neither the cleanup of another session nor a failed write on another session evicts a session. */
  lemma OtherSessionsCannotEvict(st: State, ev: Event, d: Name)
    requires Safe(st) && d in st.registry && ev.Go? && ev.t in st.threads
    requires var a, s := st.threads[ev.t], st.registry[d];
             || (a.Handler? && a.stage.Removing? && ev.t != s)
             || (a.Deliverer? && a.delivery.Dropping? && a.delivery.s != s)
    ensures Stays(st.registry, Step(st, ev).registry, d)
  {
    if !Stays(st.registry, Step(st, ev).registry, d) { EvictionHasACause(st, ev, d); }
  }

  /** Step `k` of a run may take session `s` of device `d` out of the registry. */
  predicate Takes(st: State, evs: seq<Event>, k: nat, s: nat, d: Name)
    requires k < |evs|
  {
    var before := Run(st, evs[..k]);
    evs[k].Go? && evs[k].t in before.threads && MayEvict(before.threads[evs[k].t], evs[k].t, s, d)
  }

  /** Over a whole run, a session keeps its place until one of those steps. */
  lemma {:induction false} SessionKeepsItsPlace(st: State, evs: seq<Event>, d: Name)
    requires Safe(st) && d in st.registry
    requires forall k :: 0 <= k < |evs| ==> !Takes(st, evs, k, st.registry[d], d)
    ensures Safe(Run(st, evs)) && Stays(st.registry, Run(st, evs).registry, d)
    decreases |evs|
  {
    if evs != [] {
      var n, before := |evs| - 1, evs[..|evs| - 1];
      assert !Takes(st, evs, n, st.registry[d], d);
      assert forall k :: 0 <= k < n ==> before[..k] == evs[..k];
      assert forall k :: 0 <= k < n ==> Takes(st, before, k, st.registry[d], d) == Takes(st, evs, k, st.registry[d], d);
      SessionKeepsItsPlace(st, before, d);
      var last := Run(st, before);
      hide Safe, Step, MayEvict;
      StepKeepsSafe(last, evs[n]);
      if !Stays(last.registry, Step(last, evs[n]).registry, d) { EvictionHasACause(last, evs[n], d); }
    }
  }

  /** Has session `u` joined and left the registry? */
  predicate Left(st: State, u: nat) {
    && u in st.threads && (st.threads[u].Handler? ==> Joined(st.threads[u]))
    && forall d :: d in st.registry ==> st.registry[d] != u
  }

  lemma StepKeepsLeft(st: State, ev: Event, u: nat)
    requires Safe(st) && Left(st, u)
    ensures Left(Step(st, ev), u)
  {
    StepTouches(st, ev);
    var after := Step(st, ev);
    assert forall v :: v in st.threads ==> v < st.nextId;
    if ev.Go? && after != st {
      hide Step, Safe, MayEvict, Poised, HoldsWrite, HoldsRead, MutexesMove, Pending;
      forall d | d in after.registry ensures after.registry[d] != u {
        if Stays(st.registry, after.registry, d) { assert d in st.registry; }
      }
    }
  }

  /** A session that has left the registry never comes back. */
  lemma {:induction false} LeftForGood(st: State, evs: seq<Event>, u: nat)
    requires Safe(st) && Left(st, u)
    ensures Safe(Run(st, evs)) && Left(Run(st, evs), u)
    decreases |evs|
  {
    if evs != [] {
      LeftForGood(st, evs[..|evs| - 1], u);
      StepKeepsSafe(Run(st, evs[..|evs| - 1]), evs[|evs| - 1]);
      StepKeepsLeft(Run(st, evs[..|evs| - 1]), evs[|evs| - 1], u);
      hide Safe, Step, Left;
    }
  }

  /** Main result: once a shutdown has emptied the registry and hung up, every live session that had joined is
      closed, so that its handler's read fails. */
  lemma ShutdownClosesAll(cap: nat, evs: seq<Event>, u: nat)
    requires var st := Run(Start(cap), evs);
             && st.registry == map[] && (forall v :: v in st.threads ==> Pending(st.threads[v]) == [])
             && u in st.threads && Joined(st.threads[u])
    ensures u in Run(Start(cap), evs).closed
  {
    RunKeepsSafe(cap, evs);
    var st := Run(Start(cap), evs);
    hide Run, Locked;
    assert AccountedFor(st, u, st.threads[u].device);
  }

  // ----- Deadlock freedom -----

  /** Can the thread act now, without the network and even if the registry lock makes new readers wait
      behind a waiting writer? */
  ghost predicate Ready(st: State, u: nat) {
    && u in st.threads && !st.threads[u].Finished?
    && !(st.threads[u].Handler? && (st.threads[u].stage.Upgrading? || st.threads[u].stage.Reading?))
    && !(st.threads[u].Heartbeat? && st.threads[u].beat.Ticking?)
    && match Wants(st.threads[u])
       case None => true
       case Some(RegistryWrite) => st.RegistryFree()
       case Some(RegistryRead) => st.writer.None? && forall v :: v in st.threads ==> Wants(st.threads[v]) != Some(RegistryWrite)
       case Some(Mutex(s)) => s !in st.mutexes
  }

  /** No thread waits for a session mutex, or for anything, while it holds the registry lock; and a thread
      that waits while holding a session mutex waits for the registry. */
  lemma LockOrder(th: Thread)
    ensures HoldsWrite(th) || HoldsRead(th) ==> Wants(th).None?
    ensures Wants(th).Some? && Wants(th).value.Mutex? ==> HeldMutex(th).None?
  {
  }

  /** A ready thread has a next step whatever the network answers. */
  lemma ReadyCanStep(st: State, u: nat, ok: bool) returns (pick: Name)
    requires Safe(st) && Ready(st, u)
    ensures Next(st, Go(u, ok, pick)).Some?
  {
    pick := "";
    if st.threads[u].Shutdown? && st.threads[u].stopping.Collecting? && st.registry != map[] {
      pick :| pick in st.registry;
    }
    if st.threads[u].Handler? { TokenReleaseNeverBlocks(st, u); }
  }

  /** Main result: a handler that returns its token always finds one to take back. */
  lemma TokenReleaseNeverBlocks(st: State, u: nat)
    requires Safe(st) && u in st.threads && st.threads[u].Handler?
    ensures st.tokens > 0
  {
    hide Locked, Accounted, AllPoised, Registered;
    assert u in Frames(st.threads);
  }

  /** Main result: in every reachable state, if some thread waits for a lock then some thread is ready to
      step: the waiting thread itself, a holder of a lock, or a writer next in line for the registry. */
  lemma DeadlockFree(st: State, t: nat) returns (u: nat)
    requires Safe(st) && t in st.threads && Wants(st.threads[t]).Some?
    ensures Ready(st, u)
    ensures u == t || HoldsWrite(st.threads[u]) || HoldsRead(st.threads[u])
            || HeldMutex(st.threads[u]).Some? || Wants(st.threads[u]) == Some(RegistryWrite)
  {
    var lock := Wants(st.threads[t]).value;
    if lock.Mutex? && lock.session !in st.mutexes {
      u := t;
    } else {
      var w := t;
      if lock.Mutex? { w := HolderOf(st, lock.session); }
      if Wants(st.threads[w]).Some? {
        u := RegistryMoves(st, w);
      } else {
        u := w;
      }
    }
  }

  lemma HolderOf(st: State, s: nat) returns (w: nat)
    requires Safe(st) && s in st.mutexes
    ensures w in st.threads && HeldMutex(st.threads[w]) == Some(s)
    ensures Wants(st.threads[w]).None? || Wants(st.threads[w]) == Some(RegistryWrite)
    ensures Wants(st.threads[w]).None? ==> Ready(st, w)
  {
    w := st.mutexes[s];
    assert MutexesAgree(st.mutexes, st.threads);
    hide Safe;
  }

  /** Somebody who holds or waits for the registry lock is ready. */
  lemma RegistryMoves(st: State, w: nat) returns (u: nat)
    requires Safe(st) && w in st.threads && Wants(st.threads[w]) in {Some(RegistryRead), Some(RegistryWrite)}
    ensures Ready(st, u)
    ensures u == w || HoldsWrite(st.threads[u]) || HoldsRead(st.threads[u]) || Wants(st.threads[u]) == Some(RegistryWrite)
  {
    assert WriterAgrees(st.writer, st.threads) && ReadersAgree(st.readers, st.threads);
    hide Safe;
    if st.writer.Some? {
      u := st.writer.value;
      LockOrder(st.threads[u]);
    } else if st.readers != {} {
      u :| u in st.readers;
      LockOrder(st.threads[u]);
    } else if v :| v in st.threads && Wants(st.threads[v]) == Some(RegistryWrite) {
      u := v;
    } else {
      u := w;
    }
  }

  // ----- Threads left alone -----

  /** Three steps of thread `t` and of nobody else. */
  function Alone(st: State, t: nat, ok: bool): State {
    var go := Go(t, ok, "");
    Step(Step(Step(st, go), go), go)
  }

  /** The sections under the registry lock as single updates, when nobody comes between. A registration
      replaces the entry and closes the session it held. */
  lemma RegistrationAlone(st: State, t: nat, ok: bool)
    requires t in st.threads && st.RegistryFree() && st.threads[t].Handler? && st.threads[t].stage.Registering?
    ensures var d, after := st.threads[t].device, Alone(st, t, ok);
            after.registry == st.registry[d := t] && after.closed == st.closed + Evicted(st, d) && after.RegistryFree()
  {
  }

  /** A handler's cleanup removes its own session only. */
  lemma CleanupAlone(st: State, t: nat, ok: bool)
    requires t in st.threads && st.RegistryFree() && st.threads[t].Handler? && st.threads[t].stage.Closing?
    ensures var d, after := st.threads[t].device, Alone(st, t, ok);
            after.registry == RemoveIf(st.registry, d, t) && after.closed == st.closed + {t} && after.RegistryFree()
  {
  }

  /** So does a failed write. */
  lemma FailedWriteAlone(st: State, t: nat, ok: bool)
    requires t in st.threads && st.RegistryFree() && st.threads[t].Deliverer? && st.threads[t].delivery.SendFailed?
    ensures var d, s, after := st.threads[t].device, st.threads[t].delivery.s, Alone(st, t, ok);
            after.registry == RemoveIf(st.registry, d, s) && after.closed == st.closed + {s} && after.RegistryFree()
  {
  }

  /** A disconnection removes and closes whatever is there. */
  lemma DisconnectionAlone(st: State, t: nat, ok: bool)
    requires t in st.threads && st.RegistryFree() && st.threads[t].Disconnector? && st.threads[t].disconnection.WantsDisconnect?
    ensures var d, after := st.threads[t].device, Alone(st, t, ok);
            after.registry == st.registry - {d} && after.closed == st.closed + Evicted(st, d) && after.RegistryFree()
  {
  }
}
