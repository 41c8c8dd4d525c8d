/** Where messages go, and what each kind of socket thread comes to when nobody gets in its way. */
module SocketDeliveries {
  import opened Basics
  import opened SocketRegistry
  import opened SocketSafety
  import opened SocketRuns

  // ----- A message never goes to another device -----

  /** A delivery for device `d` that has picked session `s`. */
  predicate Carries(th: Thread, d: Name, s: nat) {
    && th.Deliverer? && th.device == d && !th.delivery.WantsLookup? && !th.delivery.LookingUp?
    && th.delivery.s == s
  }

  lemma OnlyDeliveriesDeliver(st: State, t: nat, ok: bool, pick: Name)
    requires OwnLocks(st, t) && ThreadStep(st, t, ok, pick).Some? && !st.threads[t].Deliverer?
    ensures !ThreadStep(st, t, ok, pick).value.threads[t].Deliverer?
  {
    hide RemoveIf, Evicted;
    if st.threads[t].Handler? { hide HeartbeatStep, DisconnectStep, ShutdownStep; } else { hide HandlerStep; }
  }

  lemma DeliveriesPickFromTheRegistry(st: State, t: nat, ok: bool, pick: Name, d: Name, s: nat)
    requires t in st.threads && ThreadStep(st, t, ok, pick).Some? && st.threads[t].Deliverer?
    requires Carries(ThreadStep(st, t, ok, pick).value.threads[t], d, s)
    ensures Carries(st.threads[t], d, s)
            || (st.threads[t] == Deliverer(d, LookingUp) && d in st.registry && st.registry[d] == s)
  {
    hide RemoveIf;
  }

  /** One step back: the delivery had picked the session already, or picks it from the registry now. */
  lemma StepBack(st: State, ev: Event, u: nat, d: Name, s: nat)
    requires Safe(st) && u in Step(st, ev).threads && Carries(Step(st, ev).threads[u], d, s)
    ensures u in st.threads
    ensures Carries(st.threads[u], d, s)
            || (st.threads[u] == Deliverer(d, LookingUp) && d in st.registry && st.registry[d] == s)
  {
    if ev.Go? && ev.t in st.threads && ThreadStep(st, ev.t, ev.ok, ev.pick).Some? {
      assert OwnLocks(st, ev.t) by { hide HoldsWrite, HoldsRead; }
      ThreadMoves(st, ev.t, ev.ok, ev.pick);
      hide Safe, OwnLocks, HoldsWrite, HoldsRead, MutexesMove;
      if u == ev.t {
        if st.threads[u].Deliverer? {
          DeliveriesPickFromTheRegistry(st, u, ev.ok, ev.pick, d, s);
        } else {
          OnlyDeliveriesDeliver(st, u, ev.ok, ev.pick);
        }
      }
      hide ThreadStep;
    } else if !ev.Go? && Next(st, ev) != Some(st) {
      ArrivalShape(st, ev);
      hide Step, Safe;
    }
  }

  /** Main result: over every interleaving, the session that a delivery carries was, at some earlier moment
      when the delivery was under way, the one registered for its device. */
  lemma {:induction false} CarriedSessionWasRegistered(cap: nat, evs: seq<Event>, u: nat, d: Name, s: nat) returns (k: nat)
    requires var st := Run(Start(cap), evs); u in st.threads && Carries(st.threads[u], d, s)
    ensures k < |evs|
    ensures var earlier := Run(Start(cap), evs[..k]);
            u in earlier.threads && earlier.threads[u].Deliverer? && earlier.threads[u].device == d && d in earlier.registry && earlier.registry[d] == s
    decreases |evs|
  {
    var n := |evs| - 1;
    var before := evs[..n];
    RunKeepsSafe(cap, before);
    StepBack(Run(Start(cap), before), evs[n], u, d, s);
    hide Step, Safe;
    var st := Run(Start(cap), before);
    if Carries(st.threads[u], d, s) {
      k := CarriedSessionWasRegistered(cap, before, u, d, s);
      assert before[..k] == evs[..k];
    } else {
      k := n;
    }
  }

  /** Session `s` is one of device `d`: its handler, while it lives, has joined for that device. */
  predicate IsOf(st: State, s: nat, d: Name) {
    s in st.threads && (st.threads[s].Handler? ==> Joined(st.threads[s]) && st.threads[s].device == d)
  }

  lemma StepKeepsIsOf(st: State, ev: Event, s: nat, d: Name)
    requires Safe(st) && IsOf(st, s, d)
    ensures IsOf(Step(st, ev), s, d)
  {
    StepTouches(st, ev);
    var after := Step(st, ev);
    assert s < st.nextId by { assert IdsBelow(st.threads, st.nextId); }
    if ev.Go? && after != st {
      hide Step, Safe, MayEvict, Poised, HoldsWrite, HoldsRead, MutexesMove, Pending;
    } else if after != st {
      ArrivalShape(st, ev);
      hide Step, Safe;
    }
  }

  /** Main result: over every interleaving a delivery writes only to sessions of its own device. */
  lemma {:induction false} MessagesStayWithTheirDevice(cap: nat, evs: seq<Event>, u: nat, d: Name, s: nat)
    requires var st := Run(Start(cap), evs); u in st.threads && Carries(st.threads[u], d, s)
    ensures IsOf(Run(Start(cap), evs), s, d)
    decreases |evs|
  {
    var n := |evs| - 1;
    var before := evs[..n];
    var st := Run(Start(cap), before);
    RunKeepsSafe(cap, before);
    StepBack(st, evs[n], u, d, s);
    if Carries(st.threads[u], d, s) {
      MessagesStayWithTheirDevice(cap, before, u, d, s);
    } else {
      assert InRegistry(st.threads[s], d) by { assert Registered(st.registry, st.threads); }
    }
    StepKeepsIsOf(st, evs[n], s, d);
    hide Step, Safe, IsOf;
  }

  // ----- Threads that nobody disturbs -----

  function Follow(st: State, evs: seq<Event>): State
    decreases |evs|
  {
    if evs == [] then st else Follow(Step(st, evs[0]), evs[1..])
  }

  lemma {:induction false} FollowAppend(st: State, a: seq<Event>, b: seq<Event>)
    ensures Follow(st, a + b) == Follow(Follow(st, a), b)
    decreases |a|
  {
    hide Step;
    if a == [] {
      assert a + b == b;
    } else {
      assert (a + b)[0] == a[0] && (a + b)[1..] == a[1..] + b;
      FollowAppend(Step(st, a[0]), a[1..], b);
    }
  }

  /** A delivery whose lookup finds a session goes on to write to that very session, and one that finds none
      ends. */
  lemma LookupLeadsToTheWrite(st: State, u: nat, d: Name, ok: bool)
    requires u in st.threads && st.threads[u] == Deliverer(d, WantsLookup) && st.writer.None? && (d in st.registry ==> st.registry[d] !in st.mutexes)
    ensures var go := Go(u, ok, "");
            var looked := Step(Step(st, go), go);
            && looked.registry == st.registry && looked.closed == st.closed && looked.readers == st.readers - {u}
            && (d !in st.registry ==> looked.threads == st.threads[u := Finished] && looked.mutexes == st.mutexes)
            && (d in st.registry ==>
                  var s, writing := st.registry[d], Step(looked, go);
                  && writing == looked.(mutexes := st.mutexes[s := u], threads := st.threads[u := Deliverer(d, Sending(s))]))
  {
  }

  /** A successful write ends the delivery and changes nothing. */
  lemma WriteSucceeds(st: State, u: nat, d: Name, s: nat)
    requires u in st.threads && st.threads[u] == Deliverer(d, Sending(s))
    ensures Step(Step(st, Go(u, true, "")), Go(u, true, ""))
            == st.(mutexes := st.mutexes - {s}, threads := st.threads[u := Finished])
  {
  }

  /** A failed write closes its session, takes it out of the registry if it is still there, and ends the
      delivery. */
  lemma WriteFails(st: State, u: nat, d: Name, s: nat)
    requires u in st.threads && st.threads[u] == Deliverer(d, Sending(s)) && st.RegistryFree()
    ensures Step(Alone(Step(st, Go(u, false, "")), u, false), Go(u, false, ""))
            == st.(mutexes := st.mutexes - {s}, closed := st.closed + {s}, registry := RemoveIf(st.registry, d, s),
                   threads := st.threads[u := Finished])
  {
    hide RemoveIf;
    var s1 := Step(st, Go(u, false, ""));
    assert s1 == st.(threads := st.threads[u := Deliverer(d, SendFailed(s))]);
    DroppedAlone(s1, u, d, s);
    hide Alone;
  }

  lemma DroppedAlone(st: State, u: nat, d: Name, s: nat)
    requires u in st.threads && st.threads[u] == Deliverer(d, SendFailed(s)) && st.RegistryFree()
    ensures Alone(st, u, false) == st.(closed := st.closed + {s}, registry := RemoveIf(st.registry, d, s),
                                       threads := st.threads[u := Deliverer(d, Unlocking(s))])
  {
    hide RemoveIf;
  }

  /** A ping that works leaves everything as it was; one that fails closes its own session and ends the
      heartbeat; a heartbeat whose session has been stopped can end. */
  lemma HeartbeatsTendTheirSession(st: State, u: nat, s: nat)
    requires u in st.threads && st.threads[u] == Heartbeat(s, Ticking) && s !in st.mutexes
    ensures var pinging := Step(Step(st, Go(u, true, "")), Go(u, true, ""));
            && pinging == st.(mutexes := st.mutexes[s := u], threads := st.threads[u := Heartbeat(s, Pinging)])
            && Step(pinging, Go(u, true, "")) == st
            && Step(Step(pinging, Go(u, false, "")), Go(u, false, "")) == st.(closed := st.closed + {s}, threads := st.threads[u := Finished])
    ensures s in st.stopped ==> Step(st, Go(u, false, "")) == st.(threads := st.threads[u := Finished])
  {
    var pinging := Step(Step(st, Go(u, true, "")), Go(u, true, ""));
    assert pinging.mutexes - {s} == st.mutexes;
    assert pinging.threads[u := Heartbeat(s, Ticking)] == st.threads;
  }

  /** Main result: below the cap a connection is taken: its handler gets a token, and if the upgrade works, its
      session replaces and closes whatever the device had registered, and a heartbeat starts. */
  lemma ConnectionIsRegistered(st: State, d: Name)
    requires st.RegistryFree() && st.tokens < st.cap
    ensures var t := st.nextId;
            var upgrading := Step(st, Connect(d));
            && upgrading == st.(tokens := st.tokens + 1, threads := st.threads[t := Handler(d, Upgrading)], nextId := t + 1)
            && Alone(Step(upgrading, Go(t, true, "")), t, true) ==
               upgrading.(registry := st.registry[d := t], closed := st.closed + Evicted(st, d),
                          threads := st.threads[t := Handler(d, Reading)][t + 1 := Heartbeat(t, Ticking)], nextId := t + 2)
  {
    ConnectionArrives(st, d);
    var t := st.nextId;
    RegistersAlone(Step(Step(st, Connect(d)), Go(t, true, "")), t, d);
    hide Step, Alone, Safe, Evicted;
  }

  lemma ConnectionArrives(st: State, d: Name)
    requires st.tokens < st.cap
    ensures var t, upgrading := st.nextId, Step(st, Connect(d));
            && upgrading == st.(tokens := st.tokens + 1, threads := st.threads[t := Handler(d, Upgrading)], nextId := t + 1)
            && Step(upgrading, Go(t, true, "")) == upgrading.(threads := st.threads[t := Handler(d, Registering)])
  {
  }

  lemma RegistersAlone(st: State, t: nat, d: Name)
    requires t in st.threads && st.threads[t] == Handler(d, Registering) && st.RegistryFree() && t < st.nextId
    ensures Alone(st, t, true) ==
            st.(registry := st.registry[d := t], closed := st.closed + Evicted(st, d),
                threads := st.threads[t := Handler(d, Reading)][st.nextId := Heartbeat(t, Ticking)], nextId := st.nextId + 1)
  {
  }

  /** A failed upgrade gives its token back, and at the cap a connection is turned away: nothing is registered or
      closed. */
  lemma ConnectionIsRefused(st: State, d: Name)
    requires Safe(st)
    ensures st.tokens == st.cap ==> Step(st, Connect(d)) == st
    ensures st.tokens < st.cap ==>
              var t := st.nextId;
              Step(Step(Step(st, Connect(d)), Go(t, false, "")), Go(t, false, ""))
              == st.(threads := st.threads[t := Finished], nextId := t + 1)
  {
    var t := st.nextId;
    assert t !in st.threads by { assert IdsBelow(st.threads, st.nextId); }
    hide Safe;
  }

  /** Main result: when its read fails a handler closes its session, stops its heartbeat, leaves the registry if it
      is still there, and gives its token back. */
  lemma HandlerCleansUp(st: State, t: nat, d: Name, ok: bool)
    requires t in st.threads && st.threads[t] == Handler(d, Reading) && st.RegistryFree() && st.tokens > 0
    ensures Step(Alone(Step(st, Go(t, ok, "")), t, ok), Go(t, ok, ""))
            == st.(registry := RemoveIf(st.registry, d, t), closed := st.closed + {t}, stopped := st.stopped + {t},
                   tokens := st.tokens - 1, threads := st.threads[t := Finished])
  {
    var closing := Step(st, Go(t, ok, ""));
    assert closing == st.(threads := st.threads[t := Handler(d, Closing)]);
    LeavesAlone(closing, t, d, ok);
    hide Alone, RemoveIf;
  }

  lemma LeavesAlone(st: State, t: nat, d: Name, ok: bool)
    requires t in st.threads && st.threads[t] == Handler(d, Closing) && st.RegistryFree()
    ensures Alone(st, t, ok) == st.(registry := RemoveIf(st.registry, d, t), closed := st.closed + {t}, stopped := st.stopped + {t},
                                    threads := st.threads[t := Handler(d, Draining)])
  {
    hide RemoveIf;
  }

  function ToSet(s: seq<nat>): set<nat> {
    set x <- s
  }

  lemma CollectsOne(st: State, t: nat, found: seq<nat>, pick: Name)
    requires t in st.threads && st.threads[t] == Shutdown(Collecting(found))
    ensures pick in st.registry ==>
              Step(st, Go(t, true, pick)) == st.(registry := st.registry - {pick}, threads := st.threads[t := Shutdown(Collecting(found + [st.registry[pick]]))])
    ensures st.registry == map[] ==>
              Step(st, Go(t, true, pick)) == st.(writer := None, threads := st.threads[t := Shutdown(HangingUp(found))])
  {
  }

  lemma OneFewer(registry: map<Name, nat>, pick: Name, found: seq<nat>)
    requires pick in registry
    ensures ToSet(found + [registry[pick]]) + (registry - {pick}).Values == ToSet(found) + registry.Values
    ensures |registry - {pick}| < |registry|
  {
    var rest := registry - {pick};
    assert registry == rest[pick := registry[pick]];
    forall s | s in registry.Values && s != registry[pick] ensures s in rest.Values {
      var d :| d in registry && registry[d] == s;
      assert d in rest;
    }
  }

  lemma FollowFirst(st: State, ev: Event, more: seq<Event>)
    ensures Follow(st, [ev] + more) == Follow(Step(st, ev), more)
  {
    hide Step;
    assert ([ev] + more)[1..] == more;
  }

  lemma {:induction false} CollectsAll(st: State, t: nat, found: seq<nat>) returns (evs: seq<Event>, all: seq<nat>)
    requires t in st.threads && st.threads[t] == Shutdown(Collecting(found))
    ensures Follow(st, evs) == st.(registry := map[], writer := None, threads := st.threads[t := Shutdown(HangingUp(all))])
    ensures ToSet(all) == ToSet(found) + st.registry.Values
    decreases |st.registry|
  {
    hide Step, ToSet;
    if st.registry == map[] {
      all := found;
      evs := [Go(t, true, "")] + [];
      CollectsOne(st, t, found, "");
      FollowFirst(st, Go(t, true, ""), []);
      assert st.registry.Values == {};
    } else {
      var pick :| pick in st.registry;
      CollectsOne(st, t, found, pick);
      OneFewer(st.registry, pick, found);
      var next, rest := Step(st, Go(t, true, pick)), [];
      rest, all := CollectsAll(next, t, found + [st.registry[pick]]);
      evs := [Go(t, true, pick)] + rest;
      FollowFirst(st, Go(t, true, pick), rest);
      hide Follow;
    }
  }

  lemma {:induction false} HangsUpAll(st: State, t: nat, rest: seq<nat>) returns (evs: seq<Event>)
    requires t in st.threads && st.threads[t] == Shutdown(HangingUp(rest)) && forall s <- rest :: s !in st.mutexes
    ensures Follow(st, evs) == st.(closed := st.closed + ToSet(rest), threads := st.threads[t := Finished])
    decreases |rest|
  {
    var go := Go(t, true, "");
    if rest == [] {
      evs := [go] + [];
      assert Step(st, go) == st.(threads := st.threads[t := Finished]);
      FollowFirst(st, go, []);
      hide Step;
      assert ToSet(rest) == {};
    } else {
      var next := Alone(st, t, true);
      HangsUpOne(st, t, rest);
      assert ToSet(rest) == {rest[0]} + ToSet(rest[1..]) by { assert rest == [rest[0]] + rest[1..]; }
      assert forall x <- rest[1..] :: x in rest;
      assert next == Step(Step(Step(st, go), go), go);
      hide Step, Alone, ToSet;
      var more := HangsUpAll(next, t, rest[1..]);
      FollowFirst(Step(Step(st, go), go), go, more);
      FollowFirst(Step(st, go), go, [go] + more);
      FollowFirst(st, go, [go] + ([go] + more));
      evs := [go] + ([go] + ([go] + more));
      hide Follow;
    }
  }

  lemma HangsUpOne(st: State, t: nat, rest: seq<nat>)
    requires t in st.threads && rest != [] && st.threads[t] == Shutdown(HangingUp(rest)) && rest[0] !in st.mutexes
    ensures Alone(st, t, true) == st.(closed := st.closed + {rest[0]}, threads := st.threads[t := Shutdown(HangingUp(rest[1..]))])
  {
  }

  /** Main result: a shutdown that nobody disturbs ends, with the registry empty and every session that was in it
      closed, and no other. */
  lemma ShutdownEnds(st: State, t: nat) returns (evs: seq<Event>)
    requires t in st.threads && st.threads[t] == Shutdown(WantsCollect) && st.RegistryFree() && st.mutexes == map[]
    ensures Follow(st, evs) == st.(registry := map[], closed := st.closed + st.registry.Values, threads := st.threads[t := Finished])
  {
    var go := Go(t, true, "");
    var collecting := Step(st, go);
    assert collecting == st.(writer := Some(t), threads := st.threads[t := Shutdown(Collecting([]))]);
    hide Step;
    var first, all := CollectsAll(collecting, t, []);
    var emptied := Follow(collecting, first);
    var last := HangsUpAll(emptied, t, all);
    FollowAppend(collecting, first, last);
    evs := [go] + (first + last);
    FollowFirst(st, go, first + last);
    hide Follow;
    assert ToSet([]) == {};
  }
}
