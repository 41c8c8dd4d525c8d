/** What uploads and claims do, told from their requests alone, and what comes out of an upload when it is
    claimed. */
module PrekeyEffects {
  import opened Basics
  import opened PrekeyStore
  import opened PrekeyRuns

  // ----- Uploads -----

  function BatchOf(r: UploadRequest, kind: Kind): seq<NewKey> {
    if kind.Curve? then r.curve else r.pq
  }

  function IdsOf(batch: seq<NewKey>): set<KeyId> {
    set k <- batch :: k.keyId
  }

  /** The key that the batch offers first under `id`. */
  ghost predicate FirstOffer(batch: seq<NewKey>, id: KeyId, publicKey: Bytes) {
    exists i :: 0 <= i < |batch| && batch[i] == NewKey(id, publicKey) && forall j :: 0 <= j < i ==> batch[j].keyId != id
  }

  /** `after` is `before` with the new ids of the batch, each available under the key offered first. */
  ghost predicate Adds(before: map<KeyId, OneTimeKey>, after: map<KeyId, OneTimeKey>, batch: seq<NewKey>) {
    && after.Keys == before.Keys + IdsOf(batch)
    && (forall id :: id in before ==> after[id] == before[id])
    && (forall id :: id in after && id !in before ==> !after[id].consumed && FirstOffer(batch, id, after[id].publicKey))
    && |after| == |before| + |IdsOf(batch) - before.Keys|
  }

  lemma FirstOfferOfRest(batch: seq<NewKey>, id: KeyId, publicKey: Bytes)
    requires batch != [] && batch[0].keyId != id && FirstOffer(batch[1..], id, publicKey)
    ensures FirstOffer(batch, id, publicKey)
  {
    var i :| 0 <= i < |batch[1..]| && batch[1..][i] == NewKey(id, publicKey) && forall j :: 0 <= j < i ==> batch[1..][j].keyId != id;
    assert batch[i + 1] == NewKey(id, publicKey);
    assert forall j :: 0 <= j < i + 1 ==> batch[j].keyId != id by {
      assert forall j :: 0 < j < i + 1 ==> batch[j] == batch[1..][j - 1];
    }
  }

  lemma {:induction false} InsertsAdd(keys: map<KeyId, OneTimeKey>, batch: seq<NewKey>)
    ensures InsertKeys(keys, batch).Keys == keys.Keys + IdsOf(batch)
    ensures forall id :: id in keys ==> InsertKeys(keys, batch)[id] == keys[id]
    ensures forall id :: id in InsertKeys(keys, batch) && id !in keys ==>
              !InsertKeys(keys, batch)[id].consumed && FirstOffer(batch, id, InsertKeys(keys, batch)[id].publicKey)
    decreases |batch|
  {
    if batch != [] {
      var k, next, after := batch[0], InsertKey(keys, batch[0]), InsertKeys(keys, batch);
      InsertsAdd(next, batch[1..]);
      assert batch == [k] + batch[1..];
      assert IdsOf(batch) == {k.keyId} + IdsOf(batch[1..]);
      forall id | id in after && id !in keys ensures !after[id].consumed && FirstOffer(batch, id, after[id].publicKey) {
        if id == k.keyId {
          assert batch[0] == NewKey(id, after[id].publicKey);
        } else {
          FirstOfferOfRest(batch, id, after[id].publicKey);
        }
      }
    }
  }

  lemma UnionSize(a: set<KeyId>, b: set<KeyId>)
    ensures |a + b| == |a| + |b - a|
  {
    assert a + b == a + (b - a);
  }

  lemma InsertsAddAll(keys: map<KeyId, OneTimeKey>, batch: seq<NewKey>)
    ensures Adds(keys, InsertKeys(keys, batch), batch)
    ensures batch == [] ==> InsertKeys(keys, batch) == keys
  {
    InsertsAdd(keys, batch);
    UnionSize(keys.Keys, IdsOf(batch));
    var after := InsertKeys(keys, batch);
    assert batch == [] ==> after == keys;
    hide InsertKeys, FirstOffer, IdsOf;
    assert |after.Keys| == |after| && |keys.Keys| == |keys|;
  }

  function SignedOf(t: Tables, kind: Kind): map<Name, SignedKey> {
    if kind.Curve? then t.signedCurve else t.signedPQ
  }

  function SignedIn(r: UploadRequest, kind: Kind): Option<SignedKey> {
    if kind.Curve? then r.signedCurve else r.signedPQ
  }

  /** Main result: an upload is accepted exactly when neither kind would exceed ten thousand keys and the device
      is known, or nothing is to be written. A refused one changes nothing. */
  lemma UploadVerdictIsExact(t: Tables, r: UploadRequest)
    ensures var (after, result) := Upload(t, r);
            && (result.Ok? <==>
                  && (r.curve == [] || |Keys(t, Curve, r.device)| + |r.curve| <= 10000)
                  && (r.pq == [] || |Keys(t, PQ, r.device)| + |r.pq| <= 10000)
                  && (r.device in t.devices || (r.curve == [] && r.pq == [] && r.signedCurve.None? && r.signedPQ.None?)))
            && (result.Err? ==> after == t)
  {
    hide Stored, KeysOf;
  }

  /** Main result: an accepted upload adds exactly the new ids of each batch and replaces exactly the signed
      keys it brings; other devices and tables stay as they are. */
  lemma UploadStoresTheRequest(t: Tables, r: UploadRequest, kind: Kind)
    requires Upload(t, r).1.Ok?
    ensures var after := Upload(t, r).0;
            && Adds(Keys(t, kind, r.device), Keys(after, kind, r.device), BatchOf(r, kind))
            && (forall d :: d != r.device ==> Keys(after, kind, d) == Keys(t, kind, d))
            && SignedOf(after, kind) == (if SignedIn(r, kind).Some? then SignedOf(t, kind)[r.device := SignedIn(r, kind).value]
                                         else SignedOf(t, kind))
            && after.users == t.users && after.devices == t.devices && after.records == t.records
  {
    InsertsAddAll(Keys(t, kind, r.device), BatchOf(r, kind));
    hide InsertKeys, Adds, OverLimit;
  }

  // ----- Claims -----

  ghost predicate IsLeastAvailable(keys: map<KeyId, OneTimeKey>, key: Option<NewKey>) {
    match key
    case None => forall id :: id in keys ==> keys[id].consumed
    case Some(k) =>
      && k.keyId in keys && !keys[k.keyId].consumed && keys[k.keyId].publicKey == k.publicKey
      && forall id :: id in keys && !keys[id].consumed ==> k.keyId <= id
  }

  function Used(keys: map<KeyId, OneTimeKey>, key: Option<NewKey>): map<KeyId, OneTimeKey> {
    if key.Some? && key.value.keyId in keys then keys[key.value.keyId := keys[key.value.keyId].(consumed := true)] else keys
  }

  lemma ConsumeIsExact(t: KeyTable, device: Name)
    ensures var (after, key) := Consume(t, device);
            && IsLeastAvailable(KeysOf(t, device), key)
            && KeysOf(after, device) == Used(KeysOf(t, device), key)
            && (forall d :: d != device ==> KeysOf(after, d) == KeysOf(t, d))
  {
    LeastFromIsLeast(KeysOf(t, device), 0);
    hide LeastFrom;
    var least := LeastAvailable(KeysOf(t, device));
    if least.None? {
      forall id | id in KeysOf(t, device) ensures KeysOf(t, device)[id].consumed {
        assert !Available(KeysOf(t, device), id);
      }
    } else {
      forall id | id in KeysOf(t, device) && !KeysOf(t, device)[id].consumed ensures least.value <= id {
        assert Available(KeysOf(t, device), id);
      }
    }
  }

  /** Main result: a claim succeeds exactly for an active device. The bundle holds that device's identity key, its
      signed key of each kind if there is one, and the least available one-time key of each kind if there is
      one; exactly those one-time keys are used up. */
  lemma ClaimIsExact(t: Tables, device: Name)
    ensures var (after, result) := ClaimBundle(t, device);
            && (result.Ok? <==> device in t.devices && t.devices[device].active)
            && (result.Err? ==> after == t && result.error == DeviceInactive)
            && (result.Ok? ==>
                  var b := result.value;
                  && b.identityKey == t.devices[device].identityKey
                  && b.signedCurve == (if device in t.signedCurve then Some(t.signedCurve[device]) else None)
                  && b.signedPQ == (if device in t.signedPQ then Some(t.signedPQ[device]) else None)
                  && IsLeastAvailable(Keys(t, Curve, device), b.curve) && IsLeastAvailable(Keys(t, PQ, device), b.pq)
                  && Keys(after, Curve, device) == Used(Keys(t, Curve, device), b.curve)
                  && Keys(after, PQ, device) == Used(Keys(t, PQ, device), b.pq)
                  && (forall kind, d :: d != device ==> Keys(after, kind, d) == Keys(t, kind, d))
                  && after == t.(curve := after.curve, pq := after.pq))
  {
    ConsumeIsExact(t.curve, device);
    ConsumeIsExact(t.pq, device);
    hide Consume, IsLeastAvailable, Used, KeysOf;
  }

  /** Main result: a first claim under a key builds its response from the very bundle whose keys it uses up,
      and records that response with its fingerprint; it fails exactly for an unknown user, an
      inactive device or a refusal to build. */
  lemma FirstClaimIsExact(t: Tables, r: ClaimRequest, build: Builder)
    requires ClaimKey(r.user, r.key) !in t.records
    ensures var (after, result) := ClaimOnce(t, r, build);
            var (taken, bundle) := ClaimBundle(t, r.device);
            && (result.Ok? <==> r.user in t.users && bundle.Ok? && build(bundle.value).Some?)
            && (result.Ok? ==>
                  && Some(result.value) == build(bundle.value)
                  && after == taken.(records := t.records[ClaimKey(r.user, r.key) := Record(r.fingerprint, r.device, Some(result.value))]))
            && (result.Err? ==>
                  after == t && result.error == if r.user !in t.users then RequestInProgress
                                                else if bundle.Err? then DeviceInactive else ResponseFailed)
  {
    hide Consume;
  }

  // ----- From upload to claim -----

  function OfKind(hs: seq<Handout>, kind: Kind): seq<NewKey> {
    if hs == [] then [] else (if hs[0].kind == kind then [hs[0].key] else []) + OfKind(hs[1..], kind)
  }

  lemma {:induction false} OfKindSplit(a: seq<Handout>, b: seq<Handout>, kind: Kind)
    ensures OfKind(a + b, kind) == OfKind(a, kind) + OfKind(b, kind)
  {
    if a == [] {
      assert a + b == b;
    } else {
      assert (a + b)[0] == a[0] && (a + b)[1..] == a[1..] + b;
      OfKindSplit(a[1..], b, kind);
    }
  }

  /** `n` claims of the keys of one device. */
  function Claims(device: Name, n: nat): seq<Op> {
    if n == 0 then [] else [ClaimOp(device)] + Claims(device, n - 1)
  }

  /** `out` lists the `n` available keys with the least ids, or all if there are fewer, in increasing order. */
  ghost predicate Drains(keys: map<KeyId, OneTimeKey>, out: seq<NewKey>, n: nat) {
    && (forall k <- out :: k.keyId in keys && keys[k.keyId] == OneTimeKey(k.publicKey, false))
    && Ascending(out)
    && LeastFirst(AvailableKeys(keys), out)
    && |out| == if n < |AvailableKeys(keys)| then n else |AvailableKeys(keys)|
  }

  predicate Ascending(out: seq<NewKey>) {
    forall i, j :: 0 <= i < j < |out| ==> out[i].keyId < out[j].keyId
  }

  /** Whatever is left out is greater than all that is listed. */
  predicate LeastFirst(ids: set<KeyId>, out: seq<NewKey>) {
    forall k <- out, id <- ids :: id in IdsOf(out) || k.keyId < id
  }

  lemma OneClaim(t: Tables, device: Name, kind: Kind)
    requires device in t.devices && t.devices[device].active
    ensures var out := OfKind(Handouts(t, ClaimOp(device)), kind);
            var keys, after := Keys(t, kind, device), Keys(Step(t, ClaimOp(device)), kind, device);
            && |out| <= 1
            && (out == [] ==> IsLeastAvailable(keys, None) && after == keys)
            && (out != [] ==> IsLeastAvailable(keys, Some(out[0])) && after == Used(keys, Some(out[0])))
    ensures Step(t, ClaimOp(device)).devices == t.devices
  {
    ClaimIsExact(t, device);
    var b := ClaimBundle(t, device).1.value;
    OfKindSplit(if b.curve.Some? then [Handout(Curve, device, b.curve.value)] else [],
                if b.pq.Some? then [Handout(PQ, device, b.pq.value)] else [], kind);
    hide ClaimBundle, IsLeastAvailable, Used, Keys;
  }

  lemma AfterOne(keys: map<KeyId, OneTimeKey>, k: NewKey)
    requires IsLeastAvailable(keys, Some(k))
    ensures AvailableKeys(Used(keys, Some(k))) == AvailableKeys(keys) - {k.keyId}
    ensures k.keyId in AvailableKeys(keys)
  {
  }

  /** Main result: `n` claims hand out the `n` least available keys of each kind, the least first, or all of them
      if there are fewer. */
  lemma {:induction false} ClaimsDrain(t: Tables, device: Name, kind: Kind, n: nat)
    requires device in t.devices && t.devices[device].active
    ensures Drains(Keys(t, kind, device), OfKind(AllHandouts(t, Claims(device, n)), kind), n)
    decreases n
  {
    hide Step, Handouts, Drains, Keys, Used, IsLeastAvailable;
    var keys, ops := Keys(t, kind, device), Claims(device, n);
    if n == 0 {
      assert OfKind(AllHandouts(t, ops), kind) == [];
      NothingDrained(keys);
    } else {
      var t' := Step(t, ClaimOp(device));
      OneClaim(t, device, kind);
      ClaimsDrain(t', device, kind, n - 1);
      assert ops[0] == ClaimOp(device) && ops[1..] == Claims(device, n - 1);
      var first, rest := OfKind(Handouts(t, ops[0]), kind), OfKind(AllHandouts(t', Claims(device, n - 1)), kind);
      OfKindSplit(Handouts(t, ops[0]), AllHandouts(t', ops[1..]), kind);
      assert OfKind(AllHandouts(t, ops), kind) == first + rest;
      if first == [] {
        NoneToDrain(keys, rest, n);
        assert first + rest == rest;
      } else {
        assert first == [first[0]];
        DrainStep(keys, first[0], rest, n);
      }
    }
  }

  lemma NothingDrained(keys: map<KeyId, OneTimeKey>)
    ensures Drains(keys, [], 0)
  {
  }

  lemma NoneToDrain(keys: map<KeyId, OneTimeKey>, rest: seq<NewKey>, n: nat)
    requires n > 0 && IsLeastAvailable(keys, None) && Drains(keys, rest, n - 1)
    ensures Drains(keys, rest, n)
  {
    assert AvailableKeys(keys) == {};
  }

  lemma DrainStep(keys: map<KeyId, OneTimeKey>, k: NewKey, rest: seq<NewKey>, n: nat)
    requires n > 0 && IsLeastAvailable(keys, Some(k)) && Drains(Used(keys, Some(k)), rest, n - 1)
    ensures Drains(keys, [k] + rest, n)
  {
    var after := Used(keys, Some(k));
    AfterOne(keys, k);
    forall l <- rest ensures l.keyId in keys && keys[l.keyId] == OneTimeKey(l.publicKey, false) && l.keyId in AvailableKeys(keys) - {k.keyId} {
      assert l.keyId in AvailableKeys(after);
    }
    LeastFirstStep(AvailableKeys(keys), k, rest);
    hide Ascending, LeastFirst, Used;
  }

  lemma LeastFirstStep(ids: set<KeyId>, k: NewKey, rest: seq<NewKey>)
    requires k.keyId in ids && (forall id <- ids :: k.keyId <= id) && forall l <- rest :: l.keyId in ids - {k.keyId}
    requires Ascending(rest) && LeastFirst(ids - {k.keyId}, rest)
    ensures Ascending([k] + rest) && LeastFirst(ids, [k] + rest)
  {
    assert IdsOf([k] + rest) == {k.keyId} + IdsOf(rest);
    hide IdsOf;
  }

  /** Main result, end to end: if a device had no available key of a kind, then after an accepted upload enough
      claims hand out exactly the uploaded new ids, each once and in increasing order, with the public
      keys first offered for them. */
  lemma UploadedKeysAreClaimed(t: Tables, r: UploadRequest, kind: Kind, n: nat)
    requires r.device in t.devices && t.devices[r.device].active && Upload(t, r).1.Ok?
    requires AvailableKeys(Keys(t, kind, r.device)) == {}
    requires n >= |IdsOf(BatchOf(r, kind)) - Keys(t, kind, r.device).Keys|
    ensures ComesOut(Keys(t, kind, r.device), BatchOf(r, kind), OfKind(AllHandouts(Upload(t, r).0, Claims(r.device, n)), kind))
  {
    UploadStoresTheRequest(t, r, kind);
    var t' := Upload(t, r).0;
    hide Upload, AllHandouts, OfKind, Claims, Keys, SignedOf, SignedIn, BatchOf, Drains, Adds, ComesOut;
    ClaimsDrain(t', r.device, kind, n);
    DrainedIsAdded(Keys(t, kind, r.device), Keys(t', kind, r.device), BatchOf(r, kind), OfKind(AllHandouts(t', Claims(r.device, n)), kind), n);
  }

  /** `out` is the batch without the ids already in `before`, each id once, in order, with its first offer. */
  ghost predicate ComesOut(before: map<KeyId, OneTimeKey>, batch: seq<NewKey>, out: seq<NewKey>) {
    && IdsOf(out) == IdsOf(batch) - before.Keys
    && Ascending(out)
    && (forall k <- out :: FirstOffer(batch, k.keyId, k.publicKey))
  }

  lemma DrainedIsAdded(before: map<KeyId, OneTimeKey>, after: map<KeyId, OneTimeKey>, batch: seq<NewKey>, out: seq<NewKey>, n: nat)
    requires AvailableKeys(before) == {} && Adds(before, after, batch) && n >= |IdsOf(batch) - before.Keys|
    requires Drains(after, out, n)
    ensures ComesOut(before, batch, out)
  {
    var added := IdsOf(batch) - before.Keys;
    AddedAreAvailable(before, after, batch);
    forall k <- out ensures k.keyId in added && FirstOffer(batch, k.keyId, k.publicKey) {
      assert k.keyId in AvailableKeys(after);
    }
    OrderedIdsAreDistinct(out);
    hide FirstOffer, Adds, AvailableKeys, LeastFirst;
    assert IdsOf(out) <= added;
    SubsetOfSameSize(IdsOf(out), added);
  }

  lemma AddedAreAvailable(before: map<KeyId, OneTimeKey>, after: map<KeyId, OneTimeKey>, batch: seq<NewKey>)
    requires AvailableKeys(before) == {} && Adds(before, after, batch)
    ensures AvailableKeys(after) == IdsOf(batch) - before.Keys
  {
    hide IdsOf, FirstOffer;
    assert forall id :: id in before ==> id !in AvailableKeys(before);
  }

  lemma {:induction false} OrderedIdsAreDistinct(out: seq<NewKey>)
    requires Ascending(out)
    ensures |IdsOf(out)| == |out|
  {
    if out != [] {
      var rest := out[..|out| - 1];
      OrderedIdsAreDistinct(rest);
      assert out == rest + [out[|out| - 1]];
      assert IdsOf(out) == IdsOf(rest) + {out[|out| - 1].keyId};
    }
  }

  /** A signed key that is uploaded is the one that claims return. */
  lemma UploadedSignedKeyIsClaimed(t: Tables, r: UploadRequest)
    requires r.device in t.devices && t.devices[r.device].active && Upload(t, r).1.Ok?
    ensures var claimed := ClaimBundle(Upload(t, r).0, r.device).1;
            && claimed.Ok?
            && (r.signedCurve.Some? ==> claimed.value.signedCurve == r.signedCurve)
            && (r.signedPQ.Some? ==> claimed.value.signedPQ == r.signedPQ)
  {
    UploadStoresTheRequest(t, r, Curve);
    UploadStoresTheRequest(t, r, PQ);
    ClaimIsExact(Upload(t, r).0, r.device);
    hide Upload, ClaimBundle, Adds;
  }
}
