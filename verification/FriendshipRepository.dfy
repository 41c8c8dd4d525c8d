/** The friendship tables behind their repository, and the service that works on them, as objects. */
module FriendshipRepositories {
  import opened Basics
  import opened FriendshipStore
  import opened FriendService

  class FriendshipRepository {
    var users: set<int>
    var friendships: set<Pair>
    var requests: map<Pair, int>

    constructor (users: set<int>)
      ensures Now() == FriendDb(users, {}, map[]) && Consistent(Now())
    {
      this.users, friendships, requests := users, {}, map[];
    }

    function Now(): FriendDb
      reads this
    {
      FriendDb(users, friendships, requests)
    }

    method CreateFriendRequest(senderID: int, receiverID: int) returns (outcome: Outcome)
      modifies this
      ensures (Now(), outcome) == CreateRequest(old(Now()), senderID, receiverID)
    {
      var u1, u2 := senderID, receiverID;
      if u1 > u2 { u1, u2 := u2, u1; }
      if Pair(u1, u2) in friendships { return Duplicate; }
      if u1 == u2 { return ConstraintFailed; }
      if Pair(u1, u2) in requests { return Duplicate; }
      if u1 !in users || u2 !in users { return ConstraintFailed; }
      requests := requests[Pair(u1, u2) := senderID];
      return Done;
    }

    method GetFriendRequestSender(userID1: int, userID2: int) returns (sender: Option<int>)
      ensures sender == if PairOf(userID1, userID2) in requests then Some(requests[PairOf(userID1, userID2)]) else None
    {
      var u1, u2 := userID1, userID2;
      if u1 > u2 { u1, u2 := u2, u1; }
      return if Pair(u1, u2) in requests then Some(requests[Pair(u1, u2)]) else None;
    }

    method CheckFriendship(userID1: int, userID2: int) returns (areFriends: bool)
      ensures areFriends == (PairOf(userID1, userID2) in friendships)
    {
      var u1, u2 := userID1, userID2;
      if u1 > u2 { u1, u2 := u2, u1; }
      return Pair(u1, u2) in friendships;
    }

    /** DELETE FROM friend_requests; the number of rows removed. */
    method DeleteFriendRequest(u1: int, u2: int, senderID: int) returns (affected: nat)
      modifies this`requests
      ensures affected == if Pair(u1, u2) in old(requests) && old(requests)[Pair(u1, u2)] == senderID then 1 else 0
      ensures requests == if affected == 1 then old(requests) - {Pair(u1, u2)} else old(requests)
    {
      if Pair(u1, u2) in requests && requests[Pair(u1, u2)] == senderID {
        requests := requests - {Pair(u1, u2)};
        return 1;
      }
      return 0;
    }

    /** The transaction: whatever fails after the delete is rolled back. */
    method AcceptFriendRequest(senderID: int, recipientID: int) returns (outcome: Outcome)
      modifies this
      ensures (Now(), outcome) == AcceptRequest(old(Now()), senderID, recipientID)
    {
      var u1, u2 := senderID, recipientID;
      if u1 > u2 { u1, u2 := u2, u1; }
      var snapshot := Now();
      var affected := DeleteFriendRequest(u1, u2, senderID);
      if affected == 0 {
        Rollback(snapshot);
        return NotFound;
      }
      if Pair(u1, u2) in friendships {
        Rollback(snapshot);
        return Duplicate;
      }
      if u1 >= u2 || u1 !in users || u2 !in users {
        Rollback(snapshot);
        return ConstraintFailed;
      }
      friendships := friendships + {Pair(u1, u2)};
      return Done;
    }

    method Rollback(snapshot: FriendDb)
      modifies this
      ensures Now() == snapshot
    {
      users, friendships, requests := snapshot.users, snapshot.friendships, snapshot.requests;
    }

    method DeclineFriendRequest(senderID: int, recipientID: int) returns (outcome: Outcome)
      modifies this
      ensures (Now(), outcome) == DeleteRequest(old(Now()), senderID, recipientID)
    {
      var u1, u2 := senderID, recipientID;
      if u1 > u2 { u1, u2 := u2, u1; }
      var affected := DeleteFriendRequest(u1, u2, senderID);
      return if affected == 0 then NotFound else Done;
    }

    method CancelFriendRequest(senderID: int, recipientID: int) returns (outcome: Outcome)
      modifies this
      ensures (Now(), outcome) == DeleteRequest(old(Now()), senderID, recipientID)
    {
      var u1, u2 := senderID, recipientID;
      if u1 > u2 { u1, u2 := u2, u1; }
      var affected := DeleteFriendRequest(u1, u2, senderID);
      return if affected == 0 then NotFound else Done;
    }

    method RemoveFriendship(userID1: int, userID2: int)
      modifies this
      ensures Now() == old(Now()).(friendships := old(friendships) - {PairOf(userID1, userID2)})
    {
      var u1, u2 := userID1, userID2;
      if u1 > u2 { u1, u2 := u2, u1; }
      friendships := friendships - {Pair(u1, u2)};
    }

    method Step(op: FriendOp) returns (outcome: Outcome)
      modifies this
      ensures (Now(), outcome) == Apply(old(Now()), op)
    {
      match op
      case Request(actor, to) => outcome := CreateFriendRequest(actor, to);
      case Accept(actor, from) => outcome := AcceptFriendRequest(from, actor);
      case Decline(actor, from) => outcome := DeclineFriendRequest(from, actor);
      case Cancel(actor, to) => outcome := CancelFriendRequest(actor, to);
      case Unfriend(actor, other) => RemoveFriendship(actor, other); outcome := Done;
    }

    /** What other callers do between two statements of a call. */
    method RunOthers(ops: seq<FriendOp>)
      modifies this
      ensures Now() == Run(old(Now()), ops)
    {
      for i := 0 to |ops|
        invariant Now() == Run(old(Now()), ops[..i])
      {
        assert ops[..i + 1][..i] == ops[..i];
        var _ := Step(ops[i]);
      }
      assert ops[..|ops|] == ops;
    }
  }

  class FriendServiceImpl {
    const friendshipRepo: FriendshipRepository

    constructor (repository: FriendshipRepository)
      ensures friendshipRepo == repository
    {
      friendshipRepo := repository;
    }

    method AddFriend(me: int, target: Option<int>, env: Environment) returns (verdict: Verdict)
      modifies friendshipRepo
      ensures (friendshipRepo.Now(), verdict) == FriendService.AddFriend(old(friendshipRepo.Now()), me, target, env)
    {
      if target.None? { return UserNotFound; }
      var targetUserID := target.value;
      if me == targetUserID { return SelfFriendship; }
      hide TryOnce, TryFrom;
      for attempt := 0 to 3
        invariant TryFrom(friendshipRepo.Now(), me, targetUserID, env, attempt)
                  == TryFrom(old(friendshipRepo.Now()), me, targetUserID, env, 0)
      {
        TryFromUnfolds(friendshipRepo.Now(), me, targetUserID, env, attempt);
        var answer := Attempt(me, targetUserID, env, 3 * attempt);
        if answer.Some? { return answer.value; }
      }
      TryFromUnfolds(friendshipRepo.Now(), me, targetUserID, env, 3);
      return ConcurrentModifications;
    }

    /** One turn of the loop; no answer means another turn. */
    method Attempt(me: int, targetUserID: int, env: Environment, k: nat) returns (answer: Option<Verdict>)
      modifies friendshipRepo
      ensures var a := TryOnce(old(friendshipRepo.Now()), me, targetUserID, env, k);
              friendshipRepo.Now() == a.after && answer == a.verdict
    {
      hide Run, CreateRequest, Apply;
      friendshipRepo.RunOthers(env(k));
      var outcome := friendshipRepo.CreateFriendRequest(me, targetUserID);
      if outcome.Done? { return Some(Completed); }
      if !outcome.Duplicate? { return Some(StorageFailure(outcome)); }
      friendshipRepo.RunOthers(env(k + 1));
      var sender := friendshipRepo.GetFriendRequestSender(me, targetUserID);
      if sender.Some? {
        return Some(if sender.value == me then RequestAlreadySent else RequestAlreadyReceived);
      }
      friendshipRepo.RunOthers(env(k + 2));
      var areFriends := friendshipRepo.CheckFriendship(me, targetUserID);
      return if areFriends then Some(DuplicateFriendship) else None;
    }

    method AcceptRequest(me: int, target: Option<int>, env: Environment) returns (verdict: Verdict)
      modifies friendshipRepo
      ensures (friendshipRepo.Now(), verdict) == Respond(Accepting, old(friendshipRepo.Now()), me, target, env)
    {
      if target.None? { return UserNotFound; }
      friendshipRepo.RunOthers(env(0));
      var sender := friendshipRepo.GetFriendRequestSender(me, target.value);
      if sender.None? { return RequestNotFound; }
      if sender.value != target.value { return UnauthorizedAction; }
      friendshipRepo.RunOthers(env(1));
      var outcome := friendshipRepo.AcceptFriendRequest(target.value, me);
      return VerdictOf(outcome);
    }

    method DeclineRequest(me: int, target: Option<int>, env: Environment) returns (verdict: Verdict)
      modifies friendshipRepo
      ensures (friendshipRepo.Now(), verdict) == Respond(Declining, old(friendshipRepo.Now()), me, target, env)
    {
      if target.None? { return UserNotFound; }
      friendshipRepo.RunOthers(env(0));
      var sender := friendshipRepo.GetFriendRequestSender(me, target.value);
      if sender.None? { return RequestNotFound; }
      if sender.value != target.value { return UnauthorizedAction; }
      friendshipRepo.RunOthers(env(1));
      var outcome := friendshipRepo.DeclineFriendRequest(target.value, me);
      return VerdictOf(outcome);
    }

    method CancelRequest(me: int, target: Option<int>, env: Environment) returns (verdict: Verdict)
      modifies friendshipRepo
      ensures (friendshipRepo.Now(), verdict) == Respond(Cancelling, old(friendshipRepo.Now()), me, target, env)
    {
      if target.None? { return UserNotFound; }
      friendshipRepo.RunOthers(env(0));
      var sender := friendshipRepo.GetFriendRequestSender(me, target.value);
      if sender.None? { return RequestNotFound; }
      if sender.value != me { return UnauthorizedAction; }
      friendshipRepo.RunOthers(env(1));
      var outcome := friendshipRepo.CancelFriendRequest(me, target.value);
      return VerdictOf(outcome);
    }
  }
}
