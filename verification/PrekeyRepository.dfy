/** The prekey repository: every operation is a transaction that changes the tables in place and, on a
    failure, puts them back as they were when it began. */
module PrekeyRepositories {
  import opened Basics
  import opened PrekeyStore

  class PrekeyRepository {
    var users: set<int>
    var devices: map<Name, Device>
    var curve: KeyTable
    var pq: KeyTable
    var signedCurve: map<Name, SignedKey>
    var signedPQ: map<Name, SignedKey>
    var records: map<ClaimKey, Record>

    function Now(): Tables
      reads this
    {
      Tables(users, devices, curve, pq, signedCurve, signedPQ, records)
    }

    constructor ()
      ensures Now() == Tables({}, map[], map[], map[], map[], map[], map[])
    {
      users, devices, curve, pq, signedCurve, signedPQ, records := {}, map[], map[], map[], map[], map[], map[];
    }

    method Rollback(begun: Tables)
      modifies this
      ensures Now() == begun
    {
      users, devices, curve, pq := begun.users, begun.devices, begun.curve, begun.pq;
      signedCurve, signedPQ, records := begun.signedCurve, begun.signedPQ, begun.records;
    }

    /** The insert loop over one batch. */
    method InsertBatch(kind: Kind, device: Name, batch: seq<NewKey>)
      modifies this
      ensures Now() == if kind.Curve? then old(Now()).(curve := AddKeys(old(curve), device, batch))
                       else old(Now()).(pq := AddKeys(old(pq), device, batch))
    {
      hide InsertKey;
      ghost var start := if kind.Curve? then curve else pq;
      ghost var now := start;
      for i := 0 to |batch|
        invariant Now() == if kind.Curve? then old(Now()).(curve := now) else old(Now()).(pq := now)
        invariant now == if i == 0 then start else start[device := KeysOf(now, device)]
        invariant i > 0 ==> device in now
        invariant InsertKeys(KeysOf(now, device), batch[i..]) == InsertKeys(KeysOf(start, device), batch)
      {
        assert batch[i..][0] == batch[i] && batch[i..][1..] == batch[i + 1..];
        if kind.Curve? {
          curve := curve[device := InsertKey(KeysOf(curve, device), batch[i])];
        } else {
          pq := pq[device := InsertKey(KeysOf(pq, device), batch[i])];
        }
        now := now[device := InsertKey(KeysOf(now, device), batch[i])];
      }
      assert batch[|batch|..] == [];
    }

    method UploadPrekeys(r: UploadRequest) returns (result: Result<(), PrekeyError>)
      modifies this
      ensures (Now(), result) == Upload(old(Now()), r)
    {
      hide Stored, KeysOf;
      var begun := Now();
      if |r.curve| > 0 {
        var count := |KeysOf(curve, r.device)|;
        if count + |r.curve| > KEY_LIMIT {
          return Err(LimitExceeded);
        }
      }
      if |r.pq| > 0 {
        var count := |KeysOf(pq, r.device)|;
        if count + |r.pq| > KEY_LIMIT {
          return Err(LimitExceeded);
        }
      }
      StoreKeys(r);
      if r.device !in begun.devices && !r.WritesNothing() {
        Rollback(begun);
        return Err(ForeignKeyFailed);
      }
      return Ok(());
    }

    method StoreKeys(r: UploadRequest)
      modifies this
      ensures Now() == Stored(old(Now()), r)
    {
      hide AddKeys;
      if r.signedCurve.Some? {
        signedCurve := signedCurve[r.device := r.signedCurve.value];
      }
      if r.signedPQ.Some? {
        signedPQ := signedPQ[r.device := r.signedPQ.value];
      }
      InsertBatch(Curve, r.device, r.curve);
      InsertBatch(PQ, r.device, r.pq);
    }

    method ConsumeKey(kind: Kind, device: Name) returns (key: Option<NewKey>)
      modifies this
      ensures kind.Curve? ==> (Now(), key) == (old(Now()).(curve := Consume(old(curve), device).0), Consume(old(curve), device).1)
      ensures kind.PQ? ==> (Now(), key) == (old(Now()).(pq := Consume(old(pq), device).0), Consume(old(pq), device).1)
    {
      var keys := KeysOf(if kind.Curve? then curve else pq, device);
      var least := LeastAvailable(keys);
      if least.None? || least.value !in keys {
        return None;
      }
      var k := least.value;
      var used := keys[k := keys[k].(consumed := true)];
      if kind.Curve? {
        curve := curve[device := used];
      } else {
        pq := pq[device := used];
      }
      return Some(NewKey(k, keys[k].publicKey));
    }

    /** The body that both claims share: consume first, then find out whether the device is active. */
    method TakeBundle(device: Name) returns (result: Result<Bundle, PrekeyError>)
      modifies this
      ensures result == ClaimBundle(old(Now()), device).1
      ensures result.Ok? ==> Now() == ClaimBundle(old(Now()), device).0
      ensures Now().users == old(users) && Now().records == old(records)
    {
      var c := ConsumeKey(Curve, device);
      var p := ConsumeKey(PQ, device);
      if device !in devices || !devices[device].active {
        return Err(DeviceInactive);
      }
      return Ok(Bundle(devices[device].identityKey, Lookup(signedCurve, device), Lookup(signedPQ, device), c, p));
    }

    method ClaimPrekeys(device: Name) returns (result: Result<Bundle, PrekeyError>)
      modifies this
      ensures (Now(), result) == ClaimBundle(old(Now()), device)
    {
      var begun := Now();
      result := TakeBundle(device);
      if result.Err? {
        Rollback(begun);
      }
    }

    method ClaimPrekeysIdempotent(r: ClaimRequest, build: Builder) returns (result: Result<Response, PrekeyError>)
      modifies this
      ensures (Now(), result) == ClaimOnce(old(Now()), r, build)
    {
      hide Consume;
      var begun := Now();
      var ck := ClaimKey(r.user, r.key);
      if ck in records {
        var existing := records[ck];
        if existing.fingerprint != r.fingerprint {
          return Err(FingerprintMismatch);
        }
        if existing.response.None? {
          return Err(RecordUnreadable);
        }
        return Ok(existing.response.value);
      }
      if r.user !in users {
        return Err(RequestInProgress);
      }
      records := records[ck := Record(r.fingerprint, r.device, None)];
      LockingIsInvisible(begun, ck, Record(r.fingerprint, r.device, None), r.device);
      var bundle := TakeBundle(r.device);
      if bundle.Err? {
        Rollback(begun);
        return Err(bundle.error);
      }
      var response := build(bundle.value);
      if response.None? {
        Rollback(begun);
        return Err(ResponseFailed);
      }
      ghost var claimed := ClaimBundle(begun, r.device).0;
      assert records == claimed.records[ck := Record(r.fingerprint, r.device, None)];
      records := records[ck := records[ck].(response := Some(response.value))];
      assert records == claimed.records[ck := Record(r.fingerprint, r.device, Some(response.value))];
      return Ok(response.value);
    }
  }

  /** The early, still empty record does not change what is claimed. */
  lemma LockingIsInvisible(t: Tables, ck: ClaimKey, rec: Record, device: Name)
    ensures var (t1, a) := ClaimBundle(t, device);
            var (t2, b) := ClaimBundle(t.(records := t.records[ck := rec]), device);
            b == a && t2 == t1.(records := t1.records[ck := rec])
  {
  }
}
