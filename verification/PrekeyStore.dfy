/** The prekey tables as a value, and each transaction as one step: commit the new tables or keep the old. */
module PrekeyStore {
  import opened Basics

  const KEY_LIMIT: nat := 10000

  /** Key ids are 32 bits wide. */
  type KeyId = k: nat | k < 0x1_0000_0000

  datatype OneTimeKey = OneTimeKey(publicKey: Bytes, consumed: bool)
  datatype NewKey = NewKey(keyId: KeyId, publicKey: Bytes)
  datatype SignedKey = SignedKey(keyId: KeyId, publicKey: Bytes, signature: Bytes)
  datatype Device = Device(identityKey: Bytes, active: bool)

  datatype Kind = Curve | PQ

  /** The one-time keys of each device, by key id. */
  type KeyTable = map<Name, map<KeyId, OneTimeKey>>

  /** An idempotency record: complete once it has a status and a payload. */
  datatype Record = Record(fingerprint: Name, target: Name, response: Option<Response>)
  datatype Response = Response(status: int, payload: Bytes)
  datatype ClaimKey = ClaimKey(user: int, key: Name)

  datatype Tables = Tables(
    users: set<int>,
    devices: map<Name, Device>,
    curve: KeyTable,
    pq: KeyTable,
    signedCurve: map<Name, SignedKey>,
    signedPQ: map<Name, SignedKey>,
    records: map<ClaimKey, Record>)

  datatype PrekeyError = LimitExceeded | ForeignKeyFailed | DeviceInactive | FingerprintMismatch | RecordUnreadable | RequestInProgress | ResponseFailed

  datatype Bundle = Bundle(
    identityKey: Bytes,
    signedCurve: Option<SignedKey>,
    signedPQ: Option<SignedKey>,
    curve: Option<NewKey>,
    pq: Option<NewKey>)

  function KeysOf(t: KeyTable, device: Name): map<KeyId, OneTimeKey> {
    if device in t then t[device] else map[]
  }

  function Lookup(m: map<Name, SignedKey>, device: Name): Option<SignedKey> {
    if device in m then Some(m[device]) else None
  }

  // ----- Upload -----

  /** INSERT ... ON CONFLICT(device_id, key_id) DO NOTHING. */
  function InsertKey(keys: map<KeyId, OneTimeKey>, k: NewKey): map<KeyId, OneTimeKey> {
    if k.keyId in keys then keys else keys[k.keyId := OneTimeKey(k.publicKey, false)]
  }

  function InsertKeys(keys: map<KeyId, OneTimeKey>, batch: seq<NewKey>): map<KeyId, OneTimeKey>
    decreases |batch|
  {
    if batch == [] then keys else InsertKeys(InsertKey(keys, batch[0]), batch[1..])
  }

  function AddKeys(t: KeyTable, device: Name, batch: seq<NewKey>): KeyTable {
    if batch == [] then t else t[device := InsertKeys(KeysOf(t, device), batch)]
  }

  function PutSigned(m: map<Name, SignedKey>, device: Name, k: Option<SignedKey>): map<Name, SignedKey> {
    if k.Some? then m[device := k.value] else m
  }

  datatype UploadRequest = UploadRequest(
    device: Name, signedCurve: Option<SignedKey>, curve: seq<NewKey>, signedPQ: Option<SignedKey>, pq: seq<NewKey>)
  {
    predicate WritesNothing() {
      signedCurve.None? && signedPQ.None? && curve == [] && pq == []
    }
  }

  predicate OverLimit(t: KeyTable, device: Name, batch: seq<NewKey>) {
    batch != [] && |KeysOf(t, device)| + |batch| > KEY_LIMIT
  }

  function Stored(t: Tables, r: UploadRequest): Tables {
    t.(signedCurve := PutSigned(t.signedCurve, r.device, r.signedCurve),
       signedPQ := PutSigned(t.signedPQ, r.device, r.signedPQ),
       curve := AddKeys(t.curve, r.device, r.curve),
       pq := AddKeys(t.pq, r.device, r.pq))
  }

  function Upload(t: Tables, r: UploadRequest): (Tables, Result<(), PrekeyError>) {
    if OverLimit(t.curve, r.device, r.curve) || OverLimit(t.pq, r.device, r.pq) then (t, Err(LimitExceeded))
    else if r.device !in t.devices && !r.WritesNothing() then (t, Err(ForeignKeyFailed))
    else (Stored(t, r), Ok(()))
  }

  // ----- Claim -----

  predicate Available(keys: map<KeyId, OneTimeKey>, k: KeyId) {
    k in keys && !keys[k].consumed
  }

  function LeastFrom(keys: map<KeyId, OneTimeKey>, from: nat): Option<KeyId>
    decreases 0x1_0000_0000 - from
  {
    if from >= 0x1_0000_0000 then None
    else if Available(keys, from) then Some(from)
    else LeastFrom(keys, from + 1)
  }

  /** SELECT key_id ... WHERE status = 'AVAILABLE' ORDER BY key_id ASC LIMIT 1. */
  function LeastAvailable(keys: map<KeyId, OneTimeKey>): Option<KeyId> {
    LeastFrom(keys, 0)
  }

  lemma {:induction false} LeastFromIsLeast(keys: map<KeyId, OneTimeKey>, from: nat)
    ensures match LeastFrom(keys, from)
            case None => forall k: KeyId :: k >= from ==> !Available(keys, k)
            case Some(least) =>
              least >= from && Available(keys, least) && forall k: KeyId :: from <= k < least ==> !Available(keys, k)
    decreases 0x1_0000_0000 - from
  {
    if from < 0x1_0000_0000 && !Available(keys, from) {
      LeastFromIsLeast(keys, from + 1);
    }
  }

  /** UPDATE ... SET status = 'CONSUMED' WHERE key_id = (least available) RETURNING. */
  function Consume(t: KeyTable, device: Name): (KeyTable, Option<NewKey>) {
    var keys := KeysOf(t, device);
    var least := LeastAvailable(keys);
    if least.Some? && least.value in keys then
      var k := least.value;
      (t[device := keys[k := keys[k].(consumed := true)]], Some(NewKey(k, keys[k].publicKey)))
    else (t, None)
  }

  function ClaimBundle(t: Tables, device: Name): (Tables, Result<Bundle, PrekeyError>) {
    if device !in t.devices || !t.devices[device].active then (t, Err(DeviceInactive))
    else
      var (curve, c) := Consume(t.curve, device);
      var (pq, p) := Consume(t.pq, device);
      (t.(curve := curve, pq := pq),
       Ok(Bundle(t.devices[device].identityKey, Lookup(t.signedCurve, device), Lookup(t.signedPQ, device), c, p)))
  }

  /** How a caller turns a bundle into a response; it may refuse. */
  type Builder = Bundle -> Option<Response>

  datatype ClaimRequest = ClaimRequest(user: int, device: Name, key: Name, fingerprint: Name)

  /** A claim under an idempotency key. The record is written with its response or not at all. */
  function ClaimOnce(t: Tables, r: ClaimRequest, build: Builder): (Tables, Result<Response, PrekeyError>) {
    var ck := ClaimKey(r.user, r.key);
    if ck in t.records then
      var rec := t.records[ck];
      if rec.fingerprint != r.fingerprint then (t, Err(FingerprintMismatch))
      else if rec.response.None? then (t, Err(RecordUnreadable))
      else (t, Ok(rec.response.value))
    else if r.user !in t.users then (t, Err(RequestInProgress))
    else
      var (t1, claimed) := ClaimBundle(t, r.device);
      match claimed
      case Err(e) => (t, Err(e))
      case Ok(bundle) =>
        match build(bundle)
        case None => (t, Err(ResponseFailed))
        case Some(response) =>
          (t1.(records := t1.records[ck := Record(r.fingerprint, r.device, Some(response))]), Ok(response))
  }
}
