/** Whole runs of uploads, claims and device changes: a one-time key is handed out once, a claim under
    an idempotency key happens once. */
module PrekeyRuns {
  import opened Basics
  import opened PrekeyStore

  datatype Op =
    | UploadOp(upload: UploadRequest)
    | ClaimOp(device: Name)
    | ClaimOnceOp(request: ClaimRequest, build: Builder)
    | RegisterUser(user: int)
    | RegisterDevice(newDevice: Name, identityKey: Bytes)
    | RevokeDevice(revoked: Name)

  function Step(t: Tables, op: Op): Tables {
    match op
    case UploadOp(r) => Upload(t, r).0
    case ClaimOp(device) => ClaimBundle(t, device).0
    case ClaimOnceOp(r, build) => ClaimOnce(t, r, build).0
    case RegisterUser(u) => t.(users := t.users + {u})
    case RegisterDevice(d, key) => if d in t.devices then t else t.(devices := t.devices[d := Device(key, true)])
    case RevokeDevice(d) => if d in t.devices then t.(devices := t.devices[d := t.devices[d].(active := false)]) else t
  }

  function Run(t: Tables, ops: seq<Op>): Tables
    decreases |ops|
  {
    if ops == [] then t else Run(Step(t, ops[0]), ops[1..])
  }

  function TableOf(t: Tables, kind: Kind): KeyTable {
    if kind.Curve? then t.curve else t.pq
  }

  function Keys(t: Tables, kind: Kind, device: Name): map<KeyId, OneTimeKey> {
    KeysOf(TableOf(t, kind), device)
  }

  /** A one-time key that a committed claim gave out. */
  datatype Handout = Handout(kind: Kind, device: Name, key: NewKey)

  function HandoutsOf(b: Bundle, device: Name): seq<Handout> {
    (if b.curve.Some? then [Handout(Curve, device, b.curve.value)] else [])
    + (if b.pq.Some? then [Handout(PQ, device, b.pq.value)] else [])
  }

  /** Does the operation commit a claim, rather than fail or replay one? */
  predicate CommitsClaim(t: Tables, op: Op) {
    match op
    case ClaimOp(device) => ClaimBundle(t, device).1.Ok?
    case ClaimOnceOp(r, build) => ClaimKey(r.user, r.key) !in t.records && ClaimOnce(t, r, build).1.Ok?
    case _ => false
  }

  function ClaimedDevice(op: Op): Name
    requires op.ClaimOp? || op.ClaimOnceOp?
  {
    if op.ClaimOp? then op.device else op.request.device
  }

  function Handouts(t: Tables, op: Op): seq<Handout> {
    if CommitsClaim(t, op) then HandoutsOf(ClaimBundle(t, ClaimedDevice(op)).1.value, ClaimedDevice(op)) else []
  }

  function AllHandouts(t: Tables, ops: seq<Op>): seq<Handout>
    decreases |ops|
  {
    if ops == [] then [] else Handouts(t, ops[0]) + AllHandouts(Step(t, ops[0]), ops[1..])
  }

  // ----- Keys only ever go from available to consumed -----

  predicate KeysKept(before: map<KeyId, OneTimeKey>, after: map<KeyId, OneTimeKey>) {
    forall k :: k in before ==>
      k in after && after[k].publicKey == before[k].publicKey && (before[k].consumed ==> after[k].consumed)
  }

  lemma {:induction false} InsertsKeepKeys(keys: map<KeyId, OneTimeKey>, batch: seq<NewKey>)
    ensures KeysKept(keys, InsertKeys(keys, batch))
    decreases |batch|
  {
    if batch != [] {
      InsertsKeepKeys(InsertKey(keys, batch[0]), batch[1..]);
    }
  }

  /** Nothing that can happen removes a one-time key, alters it, or makes it available again; a repeated
      upload in particular does not. */
  lemma StepKeepsKeys(t: Tables, op: Op, kind: Kind, device: Name)
    ensures KeysKept(Keys(t, kind, device), Keys(Step(t, op), kind, device))
  {
    if op.UploadOp? {
      UploadKeepsKeys(t, op.upload, kind, device);
      hide Upload;
    } else if op.ClaimOp? || op.ClaimOnceOp? {
      ClaimKeepsKeys(t, op, kind, device);
      hide Step, Keys;
    }
  }

  lemma ClaimKeepsKeys(t: Tables, op: Op, kind: Kind, device: Name)
    requires op.ClaimOp? || op.ClaimOnceOp?
    ensures KeysKept(Keys(t, kind, device), Keys(Step(t, op), kind, device))
  {
    BundleKeepsKeys(t, ClaimedDevice(op), kind, device);
    ClaimTakesABundle(t, op);
    hide ClaimBundle, Step, KeysOf;
  }

  lemma ClaimTakesABundle(t: Tables, op: Op)
    requires op.ClaimOp? || op.ClaimOnceOp?
    ensures var after, bundled := Step(t, op), ClaimBundle(t, ClaimedDevice(op)).0;
            (after.curve == t.curve && after.pq == t.pq) || (after.curve == bundled.curve && after.pq == bundled.pq)
  {
    hide ClaimBundle;
  }

  lemma BundleKeepsKeys(t: Tables, claimed: Name, kind: Kind, device: Name)
    ensures KeysKept(Keys(t, kind, device), Keys(ClaimBundle(t, claimed).0, kind, device))
  {
    ConsumeKeepsKeys(TableOf(t, kind), claimed, device);
    hide Consume, KeysOf;
  }

  lemma UploadKeepsKeys(t: Tables, r: UploadRequest, kind: Kind, device: Name)
    ensures KeysKept(Keys(t, kind, device), Keys(Upload(t, r).0, kind, device))
  {
    InsertsKeepKeys(Keys(t, kind, device), if kind.Curve? then r.curve else r.pq);
    hide InsertKeys, OverLimit;
  }

  lemma ConsumeKeepsKeys(t: KeyTable, claimed: Name, device: Name)
    ensures KeysKept(KeysOf(t, device), KeysOf(Consume(t, claimed).0, device))
  {
  }

  lemma {:induction false} RunKeepsKeys(t: Tables, ops: seq<Op>, kind: Kind, device: Name)
    ensures KeysKept(Keys(t, kind, device), Keys(Run(t, ops), kind, device))
    decreases |ops|
  {
    if ops != [] {
      StepKeepsKeys(t, ops[0], kind, device);
      RunKeepsKeys(Step(t, ops[0]), ops[1..], kind, device);
      hide Step, Keys;
    }
  }

  // ----- One-time keys are handed out once, lowest first -----

  /** A committed claim hands out, of each kind, the least available key of the device, if there is one,
      and consumes exactly that. */
  lemma HandoutIsLeastAvailable(t: Tables, op: Op, h: Handout)
    requires h in Handouts(t, op)
    ensures var before := Keys(t, h.kind, h.device);
            && Available(before, h.key.keyId)
            && before[h.key.keyId].publicKey == h.key.publicKey
            && (forall k: KeyId :: k < h.key.keyId ==> !Available(before, k))
            && Keys(Step(t, op), h.kind, h.device) == before[h.key.keyId := before[h.key.keyId].(consumed := true)]
  {
    LeastFromIsLeast(KeysOf(t.curve, ClaimedDevice(op)), 0);
    LeastFromIsLeast(KeysOf(t.pq, ClaimedDevice(op)), 0);
    hide LeastFrom;
  }

  /** A claim leaves a kind out only when the device has no available key of it. */
  lemma EmptyHandoutMeansNoneAvailable(t: Tables, op: Op, kind: Kind)
    requires CommitsClaim(t, op) && forall h :: h in Handouts(t, op) ==> h.kind != kind
    ensures forall k: KeyId :: !Available(Keys(t, kind, ClaimedDevice(op)), k)
  {
    var device := ClaimedDevice(op);
    LeastFromIsLeast(KeysOf(t.curve, device), 0);
    LeastFromIsLeast(KeysOf(t.pq, device), 0);
    hide LeastFrom;
    var b := ClaimBundle(t, device).1.value;
    assert b.curve.Some? ==> Handouts(t, op)[0] == Handout(Curve, device, b.curve.value);
    assert b.pq.Some? ==> Handouts(t, op)[|Handouts(t, op)| - 1] == Handout(PQ, device, b.pq.value);
  }

  predicate SameKey(g: Handout, h: Handout) {
    g.kind == h.kind && g.device == h.device && g.key.keyId == h.key.keyId
  }

  predicate IsConsumed(t: Tables, kind: Kind, device: Name, k: KeyId) {
    k in Keys(t, kind, device) && Keys(t, kind, device)[k].consumed
  }

  lemma {:induction false} ConsumedIsNeverHandedOut(t: Tables, ops: seq<Op>, kind: Kind, device: Name, k: KeyId)
    requires IsConsumed(t, kind, device, k)
    ensures forall h :: h in AllHandouts(t, ops) ==> !(h.kind == kind && h.device == device && h.key.keyId == k)
    decreases |ops|
  {
    if ops != [] {
      StepKeepsKeys(t, ops[0], kind, device);
      forall h | h in Handouts(t, ops[0]) ensures !(h.kind == kind && h.device == device && h.key.keyId == k) {
        HandoutIsLeastAvailable(t, ops[0], h);
      }
      hide Step, Handouts;
      ConsumedIsNeverHandedOut(Step(t, ops[0]), ops[1..], kind, device, k);
    }
  }

  lemma OneClaimHandsOutOnePerKind(t: Tables, op: Op, i: nat, j: nat)
    requires i < j < |Handouts(t, op)|
    ensures !SameKey(Handouts(t, op)[i], Handouts(t, op)[j])
  {
  }

  lemma LaterClaimsHandOutOthers(t: Tables, op: Op, rest: seq<Op>, g: Handout, h: Handout)
    requires g in Handouts(t, op) && h in AllHandouts(Step(t, op), rest)
    ensures !SameKey(g, h)
  {
    HandoutIsLeastAvailable(t, op, g);
    hide Step, Handouts, AllHandouts;
    ConsumedIsNeverHandedOut(Step(t, op), rest, g.kind, g.device, g.key.keyId);
  }

  /** Main result: over any run, no two hand-outs are of the same one-time key. */
  lemma {:induction false} NoKeyIsHandedOutTwice(t: Tables, ops: seq<Op>, i: nat, j: nat)
    requires i < j < |AllHandouts(t, ops)|
    ensures !SameKey(AllHandouts(t, ops)[i], AllHandouts(t, ops)[j])
    decreases |ops|
  {
    hide Step, Handouts, SameKey;
    var first, rest := Handouts(t, ops[0]), AllHandouts(Step(t, ops[0]), ops[1..]);
    assert AllHandouts(t, ops) == first + rest;
    hide AllHandouts;
    if i >= |first| {
      NoKeyIsHandedOutTwice(Step(t, ops[0]), ops[1..], i - |first|, j - |first|);
    } else if j >= |first| {
      LaterClaimsHandOutOthers(t, ops[0], ops[1..], first[i], rest[j - |first|]);
    } else {
      OneClaimHandsOutOnePerKind(t, ops[0], i, j);
    }
  }

  // ----- Conservation and limits -----

  function AvailableKeys(keys: map<KeyId, OneTimeKey>): set<KeyId> {
    set k | k in keys && !keys[k].consumed
  }

  function CountFor(hs: seq<Handout>, kind: Kind, device: Name): nat {
    if hs == [] then 0
    else (if hs[0].kind == kind && hs[0].device == device then 1 else 0) + CountFor(hs[1..], kind, device)
  }

  lemma {:induction false} CountForSplit(a: seq<Handout>, b: seq<Handout>, kind: Kind, device: Name)
    ensures CountFor(a + b, kind, device) == CountFor(a, kind, device) + CountFor(b, kind, device)
  {
    if a == [] {
      assert a + b == b;
    } else {
      assert (a + b)[0] == a[0] && (a + b)[1..] == a[1..] + b;
      CountForSplit(a[1..], b, kind, device);
    }
  }

  /** Rows minus available keys: what has been consumed. */
  function Spent(keys: map<KeyId, OneTimeKey>): int {
    |keys| - |AvailableKeys(keys)|
  }

  lemma InsertSpendsNothing(keys: map<KeyId, OneTimeKey>, k: NewKey)
    ensures Spent(InsertKey(keys, k)) == Spent(keys)
    ensures |keys| <= |InsertKey(keys, k)| <= |keys| + 1
  {
    if k.keyId !in keys {
      assert AvailableKeys(InsertKey(keys, k)) == AvailableKeys(keys) + {k.keyId};
    }
  }

  lemma {:induction false} InsertsSpendNothing(keys: map<KeyId, OneTimeKey>, batch: seq<NewKey>)
    ensures Spent(InsertKeys(keys, batch)) == Spent(keys)
    ensures |keys| <= |InsertKeys(keys, batch)| <= |keys| + |batch|
    decreases |batch|
  {
    hide InsertKey, Spent;
    if batch != [] {
      InsertSpendsNothing(keys, batch[0]);
      InsertsSpendNothing(InsertKey(keys, batch[0]), batch[1..]);
    }
  }

  lemma ConsumingSpendsOne(keys: map<KeyId, OneTimeKey>, k: KeyId)
    requires Available(keys, k)
    ensures Spent(keys[k := keys[k].(consumed := true)]) == Spent(keys) + 1
  {
    var after := keys[k := keys[k].(consumed := true)];
    assert AvailableKeys(after) == AvailableKeys(keys) - {k};
    assert after.Keys == keys.Keys && |after.Keys| == |after| && |keys.Keys| == |keys|;
  }

  lemma CountOfBundle(b: Bundle, claimed: Name, kind: Kind, device: Name)
    ensures CountFor(HandoutsOf(b, claimed), kind, device)
            == if claimed == device && (if kind.Curve? then b.curve else b.pq).Some? then 1 else 0
  {
    CountForSplit(if b.curve.Some? then [Handout(Curve, claimed, b.curve.value)] else [],
                  if b.pq.Some? then [Handout(PQ, claimed, b.pq.value)] else [], kind, device);
  }

  lemma ConsumeSpends(t: KeyTable, claimed: Name, device: Name)
    ensures var (t', given) := Consume(t, claimed);
            && Spent(KeysOf(t', device)) == Spent(KeysOf(t, device)) + (if claimed == device && given.Some? then 1 else 0)
            && |KeysOf(t', device)| == |KeysOf(t, device)|
  {
    var keys := KeysOf(t, claimed);
    LeastFromIsLeast(keys, 0);
    var given := Consume(t, claimed).1;
    hide LeastFrom;
    if claimed == device && given.Some? {
      ConsumingSpendsOne(keys, given.value.keyId);
      var after := keys[given.value.keyId := keys[given.value.keyId].(consumed := true)];
      assert after.Keys == keys.Keys && |after.Keys| == |after| && |keys.Keys| == |keys|;
    }
  }

  /** What a committed claim does to one kind of key of one device. */
  lemma ClaimSpends(t: Tables, op: Op, kind: Kind, device: Name)
    requires CommitsClaim(t, op)
    ensures Spent(Keys(Step(t, op), kind, device)) == Spent(Keys(t, kind, device)) + CountFor(Handouts(t, op), kind, device)
    ensures |Keys(Step(t, op), kind, device)| == |Keys(t, kind, device)|
  {
    CountOfBundle(ClaimBundle(t, ClaimedDevice(op)).1.value, ClaimedDevice(op), kind, device);
    ConsumeSpends(TableOf(t, kind), ClaimedDevice(op), device);
    hide Consume, CountFor, HandoutsOf, Spent, KeysOf;
  }

  lemma StepConserves(t: Tables, op: Op, kind: Kind, device: Name)
    ensures Spent(Keys(Step(t, op), kind, device)) == Spent(Keys(t, kind, device)) + CountFor(Handouts(t, op), kind, device)
  {
    if CommitsClaim(t, op) {
      ClaimSpends(t, op, kind, device);
    } else if op.UploadOp? {
      InsertsSpendNothing(Keys(t, kind, device), if kind.Curve? then op.upload.curve else op.upload.pq);
      hide InsertKeys, Spent;
    }
  }

  /** Main result: over any run, the rows of a device that are no longer available are exactly the keys
      handed out: rows uploaded equal available plus claimed. */
  lemma {:induction false} KeysAreConserved(t: Tables, ops: seq<Op>, kind: Kind, device: Name)
    ensures Spent(Keys(Run(t, ops), kind, device)) == Spent(Keys(t, kind, device)) + CountFor(AllHandouts(t, ops), kind, device)
    decreases |ops|
  {
    if ops != [] {
      StepConserves(t, ops[0], kind, device);
      KeysAreConserved(Step(t, ops[0]), ops[1..], kind, device);
      CountForSplit(Handouts(t, ops[0]), AllHandouts(Step(t, ops[0]), ops[1..]), kind, device);
      hide Step, Handouts, Spent, CountFor;
    }
  }

  lemma StepKeepsLimit(t: Tables, op: Op, kind: Kind, device: Name)
    requires |Keys(t, kind, device)| <= KEY_LIMIT
    ensures |Keys(Step(t, op), kind, device)| <= KEY_LIMIT
  {
    if CommitsClaim(t, op) {
      ClaimSpends(t, op, kind, device);
    } else if op.UploadOp? {
      InsertsSpendNothing(Keys(t, kind, device), if kind.Curve? then op.upload.curve else op.upload.pq);
      hide InsertKeys;
    }
  }

  /** No device ever has more rows of a kind than the limit. */
  lemma {:induction false} LimitHolds(t: Tables, ops: seq<Op>, kind: Kind, device: Name)
    requires |Keys(t, kind, device)| <= 10000
    ensures |Keys(Run(t, ops), kind, device)| <= 10000
    decreases |ops|
  {
    if ops != [] {
      StepKeepsLimit(t, ops[0], kind, device);
      hide Step, Keys;
      LimitHolds(Step(t, ops[0]), ops[1..], kind, device);
    }
  }

  // ----- Idempotency -----

  /** Every committed record has its response. */
  predicate RecordsComplete(t: Tables) {
    forall ck :: ck in t.records ==> t.records[ck].response.Some?
  }

  lemma StepKeepsRecords(t: Tables, op: Op, ck: ClaimKey)
    ensures RecordsComplete(t) ==> RecordsComplete(Step(t, op))
    ensures ck in t.records ==> ck in Step(t, op).records && Step(t, op).records[ck] == t.records[ck]
  {
  }

  lemma {:induction false} RunKeepsRecords(t: Tables, ops: seq<Op>, ck: ClaimKey)
    ensures RecordsComplete(t) ==> RecordsComplete(Run(t, ops))
    ensures ck in t.records ==> ck in Run(t, ops).records && Run(t, ops).records[ck] == t.records[ck]
    decreases |ops|
  {
    if ops != [] {
      StepKeepsRecords(t, ops[0], ck);
      hide Step, RecordsComplete;
      RunKeepsRecords(Step(t, ops[0]), ops[1..], ck);
    }
  }

  /** Main result: once a claim under a key has succeeded, then after any run every claim under that key
      with the same fingerprint returns the same response, whatever its device and builder, and changes
      nothing; with another fingerprint it fails and changes nothing. No key is consumed either way. */
  lemma ClaimHappensOnce(t: Tables, r: ClaimRequest, build: Builder, ops: seq<Op>, again: ClaimRequest, build': Builder)
    requires RecordsComplete(t) && ClaimOnce(t, r, build).1.Ok?
    requires again.user == r.user && again.key == r.key
    ensures var later := Run(ClaimOnce(t, r, build).0, ops);
            && ClaimOnce(later, again, build') ==
                 (later, if again.fingerprint == r.fingerprint then ClaimOnce(t, r, build).1 else Err(FingerprintMismatch))
            && Handouts(later, ClaimOnceOp(again, build')) == []
  {
    var ck := ClaimKey(r.user, r.key);
    RunKeepsRecords(ClaimOnce(t, r, build).0, ops, ck);
    hide Run, ClaimBundle;
  }

  /** A claim that fails for any reason leaves every table as it was: a device found inactive after both
      updates, a response that could not be built, a user or device that does not exist. */
  lemma FailureChangesNothing(t: Tables, op: Op)
    requires match op
             case UploadOp(r) => Upload(t, r).1.Err?
             case ClaimOp(d) => ClaimBundle(t, d).1.Err?
             case ClaimOnceOp(r, build) => ClaimOnce(t, r, build).1.Err?
             case _ => false
    ensures Step(t, op) == t && Handouts(t, op) == []
  {
  }
}
