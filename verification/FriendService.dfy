/** The friend service: each call is a few statements, and other callers' statements may run before each
    of them. `env(k)` is what others do just before the k-th statement of a call. */
module FriendService {
  import opened Basics
  import opened FriendshipStore

  type Environment = nat -> seq<FriendOp>

  datatype Verdict =
    | Completed
    | UserNotFound
    | SelfFriendship
    | RequestAlreadySent
    | RequestAlreadyReceived
    | DuplicateFriendship
    | ConcurrentModifications
    | RequestNotFound
    | UnauthorizedAction
    | StorageFailure(cause: Outcome)

  // ----- AddFriend -----

  /** How one attempt to add a friend goes: a verdict, or another attempt. The three statements of an
      attempt see the tables `first`, `second` and `third`; the first one, the insert, leaves `created`. A
      statement that is not reached sees what the last one left. */
  datatype Attempt = Attempt(
    first: FriendDb, created: FriendDb, second: FriendDb, third: FriendDb, after: FriendDb, verdict: Option<Verdict>)

  function TryOnce(db: FriendDb, me: int, target: int, env: Environment, k: nat): Attempt {
    var p := PairOf(me, target);
    var first := Run(db, env(k));
    var (created, outcome) := CreateRequest(first, me, target);
    if outcome.Done? then Attempt(first, created, created, created, created, Some(Completed))
    else if !outcome.Duplicate? then Attempt(first, created, created, created, created, Some(StorageFailure(outcome)))
    else
      var second := Run(created, env(k + 1));
      if p in second.requests then
        Attempt(first, created, second, second, second,
                Some(if second.requests[p] == me then RequestAlreadySent else RequestAlreadyReceived))
      else
        var third := Run(second, env(k + 2));
        Attempt(first, created, second, third, third, if p in third.friendships then Some(DuplicateFriendship) else None)
  }

  /** The attempts of a call, starting with number `n` of three. */
  function TryFrom(db: FriendDb, me: int, target: int, env: Environment, n: nat): (FriendDb, Verdict)
    requires n <= 3
    decreases 3 - n
  {
    if n == 3 then (db, ConcurrentModifications)
    else
      var a := TryOnce(db, me, target, env, 3 * n);
      if a.verdict.Some? then (a.after, a.verdict.value) else TryFrom(a.after, me, target, env, n + 1)
  }

  lemma TryFromUnfolds(db: FriendDb, me: int, target: int, env: Environment, n: nat)
    requires n <= 3
    ensures TryFrom(db, me, target, env, n) ==
            if n == 3 then (db, ConcurrentModifications)
            else
              var a := TryOnce(db, me, target, env, 3 * n);
              if a.verdict.Some? then (a.after, a.verdict.value) else TryFrom(a.after, me, target, env, n + 1)
  {
  }

  function AddFriend(db: FriendDb, me: int, target: Option<int>, env: Environment): (FriendDb, Verdict) {
    if target.None? then (db, UserNotFound)
    else if me == target.value then (db, SelfFriendship)
    else TryFrom(db, me, target.value, env, 0)
  }

  /** A verdict of an attempt was true of the pair at the statement that gave it. */
  lemma AttemptIsHonest(db: FriendDb, me: int, target: int, env: Environment, k: nat)
    requires Consistent(db) && me != target
    ensures var a, p := TryOnce(db, me, target, env, k), PairOf(me, target);
            && Consistent(a.first) && Consistent(a.second) && Consistent(a.third) && Consistent(a.after)
            && a.verdict != Some(ConcurrentModifications)
            && (a.verdict == Some(Completed) ==>
                  RelationOf(a.first, p) == Strangers && a.after == a.first.(requests := a.first.requests[p := me]))
            && (a.verdict == Some(RequestAlreadySent) ==> RelationOf(a.second, p) == Pending(me))
            && (a.verdict == Some(RequestAlreadyReceived) ==> RelationOf(a.second, p) == Pending(target))
            && (a.verdict == Some(DuplicateFriendship) ==> RelationOf(a.third, p) == Friends)
            && (a.verdict.None? ==>
                  RelationOf(a.first, p) != Strangers && !RelationOf(a.second, p).Pending? && RelationOf(a.third, p) != Friends)
  {
    RunKeepsConsistent(db, env(k));
    var first := Run(db, env(k));
    RunKeepsConsistent(first, env(k + 1));
    RunKeepsConsistent(Run(first, env(k + 1)), env(k + 2));
    hide Run;
  }

  lemma InsertOfAttempt(db: FriendDb, me: int, target: int, env: Environment, k: nat)
    requires me != target && me in Run(db, env(k)).users && target in Run(db, env(k)).users
    ensures var a, p := TryOnce(db, me, target, env, k), PairOf(me, target);
            && a.first == Run(db, env(k))
            && (a.verdict.Some? ==> !a.verdict.value.StorageFailure?)
            && (a.verdict == Some(Completed) ==> a.created == a.after)
            && (a.verdict != Some(Completed) ==> a.created == a.first)
            && (a.verdict.Some? && a.verdict != Some(Completed) ==> a.after == a.third)
  {
    hide Run;
  }

  /** The tables at the three statements of attempt number `n`, if the call gets that far. */
  function AttemptAt(db: FriendDb, me: int, target: int, env: Environment, n: nat): Option<Attempt>
    requires n < 3
  {
    var a := TryOnce(db, me, target, env, 0);
    if n == 0 then Some(a)
    else if a.verdict.Some? then None
    else
      var b := TryOnce(a.after, me, target, env, 3);
      if n == 1 then Some(b)
      else if b.verdict.Some? then None
      else Some(TryOnce(b.after, me, target, env, 6))
  }

  /** Did others change the pair between the statements of an attempt? The attempt's own insert does not
      count: only what happens after it. */
  predicate Interfered(a: Attempt, p: Pair) {
    !(RelationOf(a.created, p) == RelationOf(a.second, p) == RelationOf(a.third, p))
  }

  /** Was the pair in relation `r` at one of the statements of the call? */
  ghost predicate WasSeen(db: FriendDb, me: int, target: int, env: Environment, r: Relation) {
    exists n: nat :: n < 3 && AttemptAt(db, me, target, env, n).Some?
                  && SeenIn(AttemptAt(db, me, target, env, n).value, PairOf(me, target), r)
  }

  predicate SeenIn(a: Attempt, p: Pair, r: Relation) {
    RelationOf(a.first, p) == r || RelationOf(a.second, p) == r || RelationOf(a.third, p) == r
  }

  lemma LastAttempt(db: FriendDb, me: int, target: int, env: Environment) returns (n: nat)
    requires Consistent(db) && me != target
    ensures n < 3 && AttemptAt(db, me, target, env, n).Some?
    ensures var a := AttemptAt(db, me, target, env, n).value;
            AddFriend(db, me, Some(target), env)
            == (a.after, if a.verdict.Some? then a.verdict.value else ConcurrentModifications)
    ensures n < 2 ==> AttemptAt(db, me, target, env, n).value.verdict.Some?
    ensures exists from: FriendDb :: Consistent(from) && AttemptAt(db, me, target, env, n) == Some(TryOnce(from, me, target, env, 3 * n))
  {
    AttemptIsHonest(db, me, target, env, 0);
    var a := TryOnce(db, me, target, env, 0);
    AttemptIsHonest(a.after, me, target, env, 3);
    var b := TryOnce(a.after, me, target, env, 3);
    hide TryOnce;
    assert TryFrom(db, me, target, env, 0)
           == if a.verdict.Some? then (a.after, a.verdict.value) else TryFrom(a.after, me, target, env, 1);
    n := if a.verdict.Some? then 0 else if b.verdict.Some? then 1 else 2;
  }

  /** Main result: every specific verdict was true of the pair at some moment within the call. */
  lemma VerdictsAreHonest(db: FriendDb, me: int, target: int, env: Environment)
    requires Consistent(db) && me != target
    ensures match AddFriend(db, me, Some(target), env).1
            case Completed =>
              && WasSeen(db, me, target, env, Strangers)
              && RelationOf(AddFriend(db, me, Some(target), env).0, PairOf(me, target)) == Pending(me)
            case RequestAlreadySent => WasSeen(db, me, target, env, Pending(me))
            case RequestAlreadyReceived => WasSeen(db, me, target, env, Pending(target))
            case DuplicateFriendship => WasSeen(db, me, target, env, Friends)
            case _ => true
  {
    var n := LastAttempt(db, me, target, env);
    var a := AttemptAt(db, me, target, env, n).value;
    var from :| Consistent(from) && a == TryOnce(from, me, target, env, 3 * n);
    AttemptIsHonest(from, me, target, env, 3 * n);
    hide TryOnce, AddFriend, AttemptAt;
    assert forall r :: SeenIn(a, PairOf(me, target), r) ==> WasSeen(db, me, target, env, r);
  }

  lemma AnotherAttempt(db: FriendDb, me: int, target: int, env: Environment, n: nat)
    requires Consistent(db) && me != target && n < 3
    requires TryFrom(db, me, target, env, n).1 == ConcurrentModifications
    ensures var a := TryOnce(db, me, target, env, 3 * n);
            && a.verdict.None? && Consistent(a.after) && Interfered(a, PairOf(me, target))
            && TryFrom(a.after, me, target, env, n + 1).1 == ConcurrentModifications
  {
    AttemptIsHonest(db, me, target, env, 3 * n);
    hide TryOnce;
  }

  /** Main result: the generic failure means that others changed the pair during each of the three
      attempts. */
  lemma FailureMeansInterference(db: FriendDb, me: int, target: int, env: Environment, n: nat)
    requires Consistent(db) && me != target && n < 3
    requires AddFriend(db, me, Some(target), env).1 == ConcurrentModifications
    ensures AttemptAt(db, me, target, env, n).Some?
    ensures Interfered(AttemptAt(db, me, target, env, n).value, PairOf(me, target))
  {
    var a := TryOnce(db, me, target, env, 0);
    var b := TryOnce(a.after, me, target, env, 3);
    AnotherAttempt(db, me, target, env, 0);
    AnotherAttempt(a.after, me, target, env, 1);
    AnotherAttempt(b.after, me, target, env, 2);
    hide TryOnce, TryFrom, Interfered;
  }

  /** Main result: when the first attempt is left undisturbed, it gives the verdict that is exact for the
      pair as its insert found it, strangers included, and leaves a request of `me` where there was none. */
  lemma UndisturbedAddIsExact(db: FriendDb, me: int, target: int, env: Environment)
    requires Consistent(db) && me != target && me in db.users && target in db.users
    requires !Interfered(TryOnce(db, me, target, env, 0), PairOf(me, target))
    ensures var found := RelationOf(Run(db, env(0)), PairOf(me, target));
            var (after, verdict) := AddFriend(db, me, Some(target), env);
            && verdict == (match found
                           case Strangers => Completed
                           case Pending(sender) => if sender == me then RequestAlreadySent else RequestAlreadyReceived
                           case _ => DuplicateFriendship)
            && RelationOf(after, PairOf(me, target)) == if found == Strangers then Pending(me) else found
  {
    UsersStay(db, env(0));
    RunKeepsConsistent(db, env(0));
    AttemptIsHonest(db, me, target, env, 0);
    InsertOfAttempt(db, me, target, env, 0);
    TryFromUnfolds(db, me, target, env, 0);
    hide Run, Consistent, TryOnce, TryFrom;
  }

  /** A call that finds strangers is never disturbed, nor is one between whose statements others leave the
      pair alone. */
  lemma WhatUndisturbedMeans(db: FriendDb, me: int, target: int, env: Environment)
    requires Consistent(db) && me != target && me in db.users && target in db.users
    ensures var a, p := TryOnce(db, me, target, env, 0), PairOf(me, target);
            var created := CreateRequest(Run(db, env(0)), me, target).0;
            && (RelationOf(Run(db, env(0)), p) == Strangers ==> !Interfered(a, p))
            && ((RelationOf(Run(created, env(1)), p) == RelationOf(Run(Run(created, env(1)), env(2)), p) == RelationOf(created, p)) ==>
                  !Interfered(a, p))
  {
    UsersStay(db, env(0));
    hide Run, Consistent;
  }

  lemma {:induction false} UsersStay(db: FriendDb, ops: seq<FriendOp>)
    ensures Run(db, ops).users == db.users
    decreases |ops|
  {
    if ops != [] { UsersStay(db, ops[..|ops| - 1]); }
  }

  /** A storage failure means that one of the two is not a user. */
  lemma StorageFailureMeansUnknownUser(db: FriendDb, me: int, target: int, env: Environment)
    requires Consistent(db) && me != target && AddFriend(db, me, Some(target), env).1.StorageFailure?
    ensures me !in db.users || target !in db.users
  {
    if me in db.users && target in db.users {
      var n := LastAttempt(db, me, target, env);
      AttemptsKnowTheirUsers(db, me, target, env, n);
    }
  }

  lemma AttemptsKnowTheirUsers(db: FriendDb, me: int, target: int, env: Environment, n: nat)
    requires me != target && me in db.users && target in db.users && n < 3 && AttemptAt(db, me, target, env, n).Some?
    ensures var a := AttemptAt(db, me, target, env, n).value; a.verdict.Some? ==> !a.verdict.value.StorageFailure?
  {
    var a := TryOnce(db, me, target, env, 0);
    AttemptKeepsUsers(db, me, target, env, 0);
    var b := TryOnce(a.after, me, target, env, 3);
    AttemptKeepsUsers(a.after, me, target, env, 3);
    AttemptKeepsUsers(b.after, me, target, env, 6);
    hide TryOnce;
  }

  lemma AttemptKeepsUsers(db: FriendDb, me: int, target: int, env: Environment, k: nat)
    requires me != target && me in db.users && target in db.users
    ensures var a := TryOnce(db, me, target, env, k);
            a.after.users == db.users && (a.verdict.Some? ==> !a.verdict.value.StorageFailure?)
  {
    UsersStay(db, env(k));
    var created := CreateRequest(Run(db, env(k)), me, target).0;
    UsersStay(created, env(k + 1));
    UsersStay(Run(created, env(k + 1)), env(k + 2));
    hide Run;
  }

  // ----- Accept, decline, cancel -----

  datatype Answer = Accepting | Declining | Cancelling
  {
    /** The user whose request is answered. */
    function Sender(me: int, target: int): int {
      if Cancelling? then me else target
    }

    function Statement(me: int, target: int): FriendOp {
      match this
      case Accepting => Accept(me, target)
      case Declining => Decline(me, target)
      case Cancelling => Cancel(me, target)
    }
  }

  function VerdictOf(outcome: Outcome): Verdict {
    if outcome.Done? then Completed else if outcome.NotFound? then RequestNotFound else StorageFailure(outcome)
  }

  /** Read the sender of the request, check it, then issue the statement. */
  function Respond(answer: Answer, db: FriendDb, me: int, target: Option<int>, env: Environment): (FriendDb, Verdict) {
    if target.None? then (db, UserNotFound)
    else
      var p := PairOf(me, target.value);
      var first := Run(db, env(0));
      if p !in first.requests then (first, RequestNotFound)
      else if first.requests[p] != answer.Sender(me, target.value) then (first, UnauthorizedAction)
      else
        var (after, outcome) := Apply(Run(first, env(1)), answer.Statement(me, target.value));
        (after, VerdictOf(outcome))
  }

  /** Main result: an answer completes exactly when the request, by the right sender, was there at the
      check and again at the statement; it then changes this pair and no other. Any other verdict leaves
      what others have made of the tables, and storage never refuses: an accept cannot meet an existing
      friendship. */
  lemma AnswersAreHonest(answer: Answer, db: FriendDb, me: int, target: int, env: Environment)
    requires Consistent(db)
    ensures var (after, verdict) := Respond(answer, db, me, Some(target), env);
            var p, sender := PairOf(me, target), answer.Sender(me, target);
            var first := Run(db, env(0));
            var second := Run(first, env(1));
            && verdict in {Completed, RequestNotFound, UnauthorizedAction}
            && (verdict == Completed <==> RelationOf(first, p) == RelationOf(second, p) == Pending(sender))
            && (verdict == UnauthorizedAction <==> RelationOf(first, p).Pending? && RelationOf(first, p) != Pending(sender))
            && (verdict == Completed ==>
                  && RelationOf(after, p) == (if answer.Accepting? then Friends else Strangers)
                  && forall q :: q != p ==> RelationOf(after, q) == RelationOf(second, q))
            && (verdict != Completed ==> after == first || after == second)
  {
    RunKeepsConsistent(db, env(0));
    RunKeepsConsistent(Run(db, env(0)), env(1));
    hide Run;
  }

  /** The refusals that come before any statement is issued. */
  lemma EarlyRefusals(db: FriendDb, me: int, target: Option<int>, answer: Answer, env: Environment)
    ensures target.None? ==>
              AddFriend(db, me, target, env) == (db, UserNotFound) && Respond(answer, db, me, target, env) == (db, UserNotFound)
    ensures AddFriend(db, me, target, env).1 == UserNotFound <==> target.None?
    ensures AddFriend(db, me, target, env) == (db, SelfFriendship) <==> target == Some(me)
  {
    if target.Some? && me != target.value {
      NoEarlyVerdict(db, me, target.value, env, 0);
    }
  }

  lemma {:induction false} NoEarlyVerdict(db: FriendDb, me: int, target: int, env: Environment, n: nat)
    requires n <= 3
    ensures TryFrom(db, me, target, env, n).1 !in {UserNotFound, SelfFriendship}
    decreases 3 - n
  {
    if n < 3 {
      var a := TryOnce(db, me, target, env, 3 * n);
      assert a.verdict != Some(UserNotFound) && a.verdict != Some(SelfFriendship);
      hide TryOnce;
      NoEarlyVerdict(a.after, me, target, env, n + 1);
    }
  }

  // ----- Calls as runs of statements -----

  /** The statements executed up to the end of attempt `n`, others' and the caller's, in order. */
  function AttemptTrace(db: FriendDb, me: int, target: int, env: Environment, k: nat): seq<FriendOp> {
    var first := Run(db, env(k));
    var (created, outcome) := CreateRequest(first, me, target);
    var own := env(k) + [Request(me, target)];
    if !outcome.Duplicate? then own
    else if PairOf(me, target) in Run(created, env(k + 1)).requests then own + env(k + 1)
    else own + env(k + 1) + env(k + 2)
  }

  lemma AttemptIsARun(db: FriendDb, me: int, target: int, env: Environment, k: nat)
    ensures TryOnce(db, me, target, env, k).after == Run(db, AttemptTrace(db, me, target, env, k))
  {
    var first := Run(db, env(k));
    var own := env(k) + [Request(me, target)];
    RunAppend(db, env(k), [Request(me, target)]);
    RunOne(first, Request(me, target));
    RunAppend(db, own, env(k + 1));
    RunAppend(db, own + env(k + 1), env(k + 2));
    hide Run;
  }

  /** Is `ops` made of statements of others and of `own`? */
  ghost predicate InterleavedWith(ops: seq<FriendOp>, own: FriendOp, env: Environment) {
    forall op <- ops :: op == own || exists k: nat :: op in env(k)
  }

  lemma {:induction false} AttemptsAreARun(db: FriendDb, me: int, target: int, env: Environment, n: nat) returns (ops: seq<FriendOp>)
    requires n <= 3
    ensures TryFrom(db, me, target, env, n).0 == Run(db, ops) && InterleavedWith(ops, Request(me, target), env)
    decreases 3 - n
  {
    if n == 3 {
      ops := [];
    } else {
      var a := TryOnce(db, me, target, env, 3 * n);
      AttemptIsARun(db, me, target, env, 3 * n);
      var trace := AttemptTrace(db, me, target, env, 3 * n);
      assert InterleavedWith(trace, Request(me, target), env) by { hide Run, CreateRequest; }
      hide TryOnce, AttemptTrace, Run;
      if a.verdict.Some? {
        ops := trace;
      } else {
        var rest := AttemptsAreARun(a.after, me, target, env, n + 1);
        RunAppend(db, trace, rest);
        ops := trace + rest;
      }
    }
  }

  /** The one kind of statement a call issues: the request, or the answer. */
  function OwnStatement(me: int, target: int, answer: Option<Answer>): FriendOp {
    if answer.Some? then answer.value.Statement(me, target) else Request(me, target)
  }

  /** Main result: whatever others do meanwhile, a call amounts to a run of statements in which its own are
      all the one request or answer it is for, in the caller's name. The consent theorem speaks of all such
      runs, so it covers service calls interleaved in any way. */
  lemma CallsAreRuns(db: FriendDb, me: int, target: Option<int>, answer: Option<Answer>, env: Environment)
    returns (ops: seq<FriendOp>)
    ensures target.None? ==> ops == []
    ensures target.Some? ==> InterleavedWith(ops, OwnStatement(me, target.value, answer), env)
    ensures (if answer.Some? then Respond(answer.value, db, me, target, env) else AddFriend(db, me, target, env)).0 == Run(db, ops)
  {
    ops := [];
    if target.Some? {
      if answer.Some? {
        var first := Run(db, env(0));
        var p, op := PairOf(me, target.value), answer.value.Statement(me, target.value);
        ops := env(0);
        if p in first.requests && first.requests[p] == answer.value.Sender(me, target.value) {
          RunAppend(db, env(0), env(1));
          RunAppend(db, env(0) + env(1), [op]);
          RunOne(Run(first, env(1)), op);
          ops := env(0) + env(1) + [op];
          hide Run, Apply;
        }
      } else if me != target.value {
        ops := AttemptsAreARun(db, me, target.value, env, 0);
      }
    }
  }

  /** Main result: consent at the level of service calls. If two strangers are friends after a call, then
      one asked and the other accepted that very request while it was live; and unless the call is an
      accept, that accept was somebody else's statement. */
  lemma CallsNeedConsent(db: FriendDb, me: int, target: int, answer: Option<Answer>, env: Environment, p: Pair)
    returns (ops: seq<FriendOp>, i: nat, j: nat, a: int, b: int)
    requires Consistent(db) && RelationOf(db, p) == Strangers
    requires RelationOf((if answer.Some? then Respond(answer.value, db, me, Some(target), env)
                         else AddFriend(db, me, Some(target), env)).0, p) == Friends
    ensures InterleavedWith(ops, OwnStatement(me, target, answer), env)
    ensures p == PairOf(a, b) && Agreed(db, ops, i, j, a, b)
    ensures answer != Some(Accepting) ==> exists k: nat :: Accept(b, a) in env(k)
  {
    ops := CallsAreRuns(db, me, Some(target), answer, env);
    assert ops[..|ops|] == ops;
    hide Run, Respond, AddFriend;
    i, j, a, b := FriendshipNeedsConsent(db, ops, p);
    assert ops[j] in ops;
  }
}
