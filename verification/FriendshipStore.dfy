/** Friendships and friend requests: the tables, and each statement or transaction as one step taken by
    a user. */
module FriendshipStore {

  /** A row key: the two users, smaller id first. */
  datatype Pair = Pair(low: int, high: int)

  function PairOf(a: int, b: int): (p: Pair)
    ensures p.low <= p.high
  {
    if a > b then Pair(b, a) else Pair(a, b)
  }

  /** A pair holds its two users whatever their order, and no others. */
  lemma PairIsUnordered(a: int, b: int, c: int, d: int)
    ensures PairOf(a, b) == PairOf(c, d) <==> {a, b} == {c, d}
    ensures PairOf(a, b).low == PairOf(a, b).high <==> a == b
  {
    assert {a, b} == {PairOf(a, b).low, PairOf(a, b).high};
    assert {c, d} == {PairOf(c, d).low, PairOf(c, d).high};
    if {a, b} == {c, d} {
      assert a in {c, d} && b in {c, d} && c in {a, b} && d in {a, b};
    }
  }

  datatype FriendDb = FriendDb(users: set<int>, friendships: set<Pair>, requests: map<Pair, int>)

  datatype Outcome = Done | Duplicate | NotFound | ConstraintFailed

  /** What a pair of users is to each other. */
  datatype Relation = Strangers | Pending(sender: int) | Friends | Both

  function RelationOf(db: FriendDb, p: Pair): Relation {
    if p in db.requests then (if p in db.friendships then Both else Pending(db.requests[p]))
    else if p in db.friendships then Friends else Strangers
  }

  /** A statement, with the user on whose behalf the service issues it. */
  datatype FriendOp =
    | Request(actor: int, to: int)
    | Accept(actor: int, from: int)
    | Decline(actor: int, from: int)
    | Cancel(actor: int, to: int)
    | Unfriend(actor: int, other: int)

  /** INSERT ... SELECT ... WHERE NOT EXISTS (friendship), under the constraints of the table. */
  function CreateRequest(db: FriendDb, sender: int, receiver: int): (FriendDb, Outcome) {
    var p := PairOf(sender, receiver);
    if p in db.friendships then (db, Duplicate)
    else if p.low == p.high then (db, ConstraintFailed)
    else if p in db.requests then (db, Duplicate)
    else if p.low !in db.users || p.high !in db.users then (db, ConstraintFailed)
    else (db.(requests := db.requests[p := sender]), Done)
  }

  /** DELETE ... WHERE the pair and the sender match. */
  function DeleteRequest(db: FriendDb, sender: int, recipient: int): (FriendDb, Outcome) {
    var p := PairOf(sender, recipient);
    if p in db.requests && db.requests[p] == sender then (db.(requests := db.requests - {p}), Done) else (db, NotFound)
  }

  /** The transaction of an accept: delete the request, insert the friendship, or neither. */
  function AcceptRequest(db: FriendDb, sender: int, recipient: int): (FriendDb, Outcome) {
    var p := PairOf(sender, recipient);
    var (db1, deleted) := DeleteRequest(db, sender, recipient);
    if deleted.NotFound? then (db, NotFound)
    else if p in db.friendships then (db, Duplicate)
    else if p.low >= p.high || p.low !in db.users || p.high !in db.users then (db, ConstraintFailed)
    else (db1.(friendships := db1.friendships + {p}), Done)
  }

  function Apply(db: FriendDb, op: FriendOp): (FriendDb, Outcome) {
    match op
    case Request(actor, to) => CreateRequest(db, actor, to)
    case Accept(actor, from) => AcceptRequest(db, from, actor)
    case Decline(actor, from) => DeleteRequest(db, from, actor)
    case Cancel(actor, to) => DeleteRequest(db, actor, to)
    case Unfriend(actor, other) => (db.(friendships := db.friendships - {PairOf(actor, other)}), Done)
  }

  function Run(db: FriendDb, ops: seq<FriendOp>): FriendDb
    decreases |ops|
  {
    if ops == [] then db else Apply(Run(db, ops[..|ops| - 1]), ops[|ops| - 1]).0
  }

  lemma {:induction false} RunAppend(db: FriendDb, a: seq<FriendOp>, b: seq<FriendOp>)
    ensures Run(db, a + b) == Run(Run(db, a), b)
    decreases |b|
  {
    if b == [] {
      assert a + b == a;
    } else {
      assert (a + b)[..|a + b| - 1] == a + b[..|b| - 1];
      RunAppend(db, a, b[..|b| - 1]);
    }
  }

  lemma RunOne(db: FriendDb, op: FriendOp)
    ensures Run(db, [op]) == Apply(db, op).0
  {
  }

  // ----- What the tables never show -----

  predicate Consistent(db: FriendDb) {
    && (forall p :: p in db.requests ==>
          && p !in db.friendships && p.low < p.high && p.low in db.users && p.high in db.users
          && (db.requests[p] == p.low || db.requests[p] == p.high))
    && (forall p :: p in db.friendships ==> p.low < p.high)
  }

  lemma StepKeepsConsistent(db: FriendDb, op: FriendOp)
    requires Consistent(db)
    ensures Consistent(Apply(db, op).0)
  {
  }

  /** Main result: after any sequence of statements a request and a friendship never coexist, and an
      accept never meets an existing friendship or a broken constraint. */
  lemma {:induction false} RunKeepsConsistent(db: FriendDb, ops: seq<FriendOp>)
    requires Consistent(db)
    ensures Consistent(Run(db, ops))
    ensures forall p :: !RelationOf(Run(db, ops), p).Both?
    ensures forall actor, from :: Apply(Run(db, ops), Accept(actor, from)).1 in {Done, NotFound}
    decreases |ops|
  {
    if ops != [] {
      RunKeepsConsistent(db, ops[..|ops| - 1]);
      StepKeepsConsistent(Run(db, ops[..|ops| - 1]), ops[|ops| - 1]);
    }
  }

  /** What one statement can do to a pair: the transitions of the friendship protocol, each with the user
      who may take it. */
  lemma Transitions(db: FriendDb, op: FriendOp, p: Pair)
    requires Consistent(db)
    ensures var before, after := RelationOf(db, p), RelationOf(Apply(db, op).0, p);
            after == before
            || (before == Strangers && op.Request? && p == PairOf(op.actor, op.to) && after == Pending(op.actor))
            || (op.Accept? && p == PairOf(op.actor, op.from) && before == Pending(op.from) && after == Friends && op.actor != op.from)
            || (op.Decline? && p == PairOf(op.actor, op.from) && before == Pending(op.from) && after == Strangers)
            || (op.Cancel? && p == PairOf(op.actor, op.to) && before == Pending(op.actor) && after == Strangers)
            || (op.Unfriend? && p == PairOf(op.actor, op.other) && before == Friends && after == Strangers)
  {
  }

  /** The pair a statement is about. */
  function Subject(op: FriendOp): Pair {
    match op
    case Request(a, b) => PairOf(a, b)
    case Accept(a, b) => PairOf(a, b)
    case Decline(a, b) => PairOf(a, b)
    case Cancel(a, b) => PairOf(a, b)
    case Unfriend(a, b) => PairOf(a, b)
  }

  /** Main result: exactly when each statement takes effect, what it then makes of its pair, and what it reports
      otherwise. Other pairs and the users stay as they are. */
  lemma StatementsAreExact(db: FriendDb, op: FriendOp)
    requires Consistent(db)
    ensures var (after, outcome) := Apply(db, op);
            var was, now := RelationOf(db, Subject(op)), RelationOf(after, Subject(op));
            && after.users == db.users && (forall q :: q != Subject(op) ==> RelationOf(after, q) == RelationOf(db, q))
            && (outcome != Done ==> after == db)
            && match op
               case Request(a, b) =>
                 && (outcome == Done <==> was == Strangers && a != b && a in db.users && b in db.users)
                 && (outcome == Duplicate <==> was != Strangers)
                 && outcome != NotFound && (outcome == Done ==> now == Pending(a))
               case Accept(_, from) => outcome == (if was == Pending(from) then Done else NotFound) && (outcome == Done ==> now == Friends)
               case Decline(_, from) => outcome == (if was == Pending(from) then Done else NotFound) && (outcome == Done ==> now == Strangers)
               case Cancel(a, _) => outcome == (if was == Pending(a) then Done else NotFound) && (outcome == Done ==> now == Strangers)
               case Unfriend(_, _) => outcome == Done && now == if was == Friends then Strangers else was
  {
  }

  // ----- Consent -----

  /** The relation of a pair after the first `k` steps of a run. */
  function RelationAt(db: FriendDb, ops: seq<FriendOp>, k: nat, p: Pair): Relation
    requires k <= |ops|
  {
    RelationOf(Run(db, ops[..k]), p)
  }

  /** From its creation by `a` at step `i`, a request to `b` was live at every moment up to step `n`. */
  ghost predicate LiveSince(db: FriendDb, ops: seq<FriendOp>, i: nat, n: nat, a: int, b: int) {
    && i < n <= |ops| && ops[i] == Request(a, b)
    && RelationAt(db, ops, i, PairOf(a, b)) == Strangers
    && forall k :: i < k <= n ==> RelationAt(db, ops, k, PairOf(a, b)) == Pending(a)
  }

  /** The two have agreed: `a` asked at step `i`, `b` accepted that very request at step `j`, and they
      have been friends ever since. */
  ghost predicate Agreed(db: FriendDb, ops: seq<FriendOp>, i: nat, j: nat, a: int, b: int) {
    && a != b && j < |ops| && LiveSince(db, ops, i, j, a, b) && ops[j] == Accept(b, a)
    && forall k :: j < k <= |ops| ==> RelationAt(db, ops, k, PairOf(a, b)) == Friends
  }

  /** The last step of a run, and how the earlier moments look from the run without it. */
  lemma LastStep(db: FriendDb, ops: seq<FriendOp>, p: Pair)
    requires Consistent(db) && ops != []
    ensures var n, before := |ops|, ops[..|ops| - 1];
            && (forall k :: 0 <= k < n ==> RelationAt(db, before, k, p) == RelationAt(db, ops, k, p))
            && RelationAt(db, ops, n, p) == RelationOf(Run(db, ops), p)
            && RelationAt(db, ops, n - 1, p) == RelationOf(Run(db, before), p)
            && var was, now, op := RelationAt(db, ops, n - 1, p), RelationAt(db, ops, n, p), ops[n - 1];
               && !was.Both? && !now.Both?
               && (now.Pending? ==>
                     now == was || (was == Strangers && op.Request? && p == PairOf(op.actor, op.to) && now == Pending(op.actor)))
               && (now == Friends ==>
                     now == was || (op.Accept? && p == PairOf(op.actor, op.from) && was == Pending(op.from) && op.actor != op.from))
  {
    var before := ops[..|ops| - 1];
    RunKeepsConsistent(db, before);
    RunKeepsConsistent(db, ops);
    Transitions(Run(db, before), ops[|ops| - 1], p);
    hide Apply;
    assert ops[..|ops|] == ops;
    assert forall k :: 0 <= k < |ops| ==> ops[..k] == before[..k];
  }

  lemma {:induction false} PendingHasARequest(db: FriendDb, ops: seq<FriendOp>, p: Pair) returns (i: nat, a: int, b: int)
    requires Consistent(db) && RelationOf(db, p) == Strangers && RelationAt(db, ops, |ops|, p).Pending?
    ensures p == PairOf(a, b) && RelationAt(db, ops, |ops|, p) == Pending(a)
    ensures LiveSince(db, ops, i, |ops|, a, b)
    decreases |ops|
  {
    assert RelationAt(db, ops, 0, p) == RelationOf(db, p);
    LastStep(db, ops, p);
    hide RelationAt;
    var n, before := |ops|, ops[..|ops| - 1];
    if RelationAt(db, ops, n - 1, p).Pending? {
      i, a, b := PendingHasARequest(db, before, p);
    } else {
      i, a, b := n - 1, ops[n - 1].actor, ops[n - 1].to;
    }
  }

  /** Main result: under any interleaving, every friendship was asked for by one of the two and accepted by
      the other while that very request was live. */
  lemma {:induction false} FriendshipNeedsConsent(db: FriendDb, ops: seq<FriendOp>, p: Pair)
    returns (i: nat, j: nat, a: int, b: int)
    requires Consistent(db) && RelationOf(db, p) == Strangers && RelationAt(db, ops, |ops|, p) == Friends
    ensures p == PairOf(a, b) && Agreed(db, ops, i, j, a, b)
    decreases |ops|
  {
    assert RelationAt(db, ops, 0, p) == RelationOf(db, p);
    LastStep(db, ops, p);
    hide RelationAt;
    var n, before := |ops|, ops[..|ops| - 1];
    if RelationAt(db, ops, n - 1, p) == Friends {
      i, j, a, b := FriendshipNeedsConsent(db, before, p);
      StillAgreed(db, ops, i, j, a, b);
    } else {
      i, a, b := PendingHasARequest(db, before, p);
      j := n - 1;
      assert b == ops[j].actor;
      assert LiveSince(db, ops, i, j, a, b);
    }
  }

  lemma StillAgreed(db: FriendDb, ops: seq<FriendOp>, i: nat, j: nat, a: int, b: int)
    requires Consistent(db) && ops != [] && Agreed(db, ops[..|ops| - 1], i, j, a, b)
    requires RelationAt(db, ops, |ops|, PairOf(a, b)) == Friends
    ensures Agreed(db, ops, i, j, a, b)
  {
    LastStep(db, ops, PairOf(a, b));
    hide RelationAt;
  }
}
