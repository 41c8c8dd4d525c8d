/** The sharded limiter: one map of rate windows per shard, a bound on the keys of a shard,
    and a sweep of expired keys when a new key meets a full shard. */
module TimeWindowLimiters {
  import opened RateWindows

  /** One shard as a value. */
  type Shard<K> = map<K, Window>

  /** The keys that still hold an active timestamp, pruned; the others are gone. */
  function Sweep<K>(m: Shard<K>, now: int, window: Duration): (r: Shard<K>) {
    map k | k in m && PruneWindow(m[k], now, window).log != [] :: PruneWindow(m[k], now, window)
  }

  /** The shard in which a new key is placed: swept if it was full. */
  function MakeRoom<K>(m: Shard<K>, maxKeys: nat, now: int, window: Duration): Shard<K> {
    if |m| >= maxKeys then Sweep(m, now, window) else m
  }

  function AllowInShard<K>(m: Shard<K>, maxKeys: nat, key: K, limit: int, now: int, window: Duration): (Shard<K>, bool) {
    if key in m then
      var (w, ok) := RecordWindow(PruneWindow(m[key], now, window), now, limit);
      (m[key := w], ok)
    else
      var room := MakeRoom(m, maxKeys, now, window);
      if |room| >= maxKeys then (room, false)
      else
        var (w, ok) := RecordWindow(EMPTY_WINDOW, now, limit);
        (room[key := w], ok)
  }

  lemma OverwriteTwice<K, V>(m: map<K, V>, k: K, v: V, w: V)
    ensures m[k := v][k := w] == m[k := w]
  {
  }

  /** The sweep while the keys of `todo` are still to be visited. */
  function SweepExcept<K>(m: Shard<K>, todo: set<K>, now: int, window: Duration): (r: Shard<K>) {
    map k | k in m && (k in todo || PruneWindow(m[k], now, window).log != []) ::
      if k in todo then m[k] else PruneWindow(m[k], now, window)
  }

  function SweptEntry<K>(m: Shard<K>, key: K, now: int, window: Duration): Shard<K>
    requires key in m
  {
    var w := PruneWindow(m[key], now, window);
    if w.log == [] then m - {key} else m[key := w]
  }

  lemma SweepOneMore<K>(m: Shard<K>, todo: set<K>, key: K, now: int, window: Duration)
    requires key in m && key in todo
    ensures SweptEntry(SweepExcept(m, todo, now, window), key, now, window)
            == SweepExcept(m, todo - {key}, now, window)
  {
  }

  // ----- The shard object -----

  ghost predicate Belongs<K>(o: object?, owner: map<object?, K>, key: K) {
    o in owner && owner[o] == key
  }

  ghost predicate Denotes(rw: RateWindow, w: Window)
    reads rw, rw.timestamps
  {
    rw.Valid() && rw.State() == w
  }

  class WindowShard<K(==)> {
    var entries: map<K, RateWindow>
    ghost var Model: Shard<K>
    /** Which key each object of the shard belongs to: no two keys share storage. */
    ghost var owner: map<object?, K>

    ghost function Repr(): set<object?>
      reads this
    {
      {this} + owner.Keys
    }

    ghost predicate Valid()
      reads this, Repr()
    {
      && this !in owner
      && Model.Keys == entries.Keys
      && (forall k :: k in entries ==>
            && Belongs(entries[k], owner, k)
            && Belongs(entries[k].timestamps, owner, k)
            && Denotes(entries[k], Model[k]))
    }

    /** Only objects that did not exist before have joined the shard. */
    twostate predicate GrewFresh()
      reads this
    {
      forall o :: o in owner && o !in old(owner) ==> fresh(o)
    }

    constructor ()
      ensures Valid() && fresh(this) && owner == map[]
      ensures Model == map[]
    {
      entries, Model, owner := map[], map[], map[];
    }

    method PruneEntry(key: K, now: int, window: Duration) returns (left: nat)
      requires Valid() && key in entries
      modifies Repr()
      ensures Valid() && owner == old(owner) && entries == old(entries)
      ensures left == |Model[key].log|
      ensures Model == old(Model)[key := PruneWindow(old(Model)[key], now, window)]
    {
      hide PruneWindow;
      entries[key].Prune(now, window);
      left := entries[key].count;
      Model := Model[key := PruneWindow(Model[key], now, window)];
    }

    /** All is valid, except that `key` now stands for `w` and its storage may be new. */
    ghost predicate Unsettled(key: K, w: Window)
      reads this, Repr(), if key in entries then {entries[key], entries[key].timestamps} else {}
    {
      && this !in owner
      && Model.Keys + {key} == entries.Keys
      && (forall k :: k in entries && k != key ==>
            && Belongs(entries[k], owner, k)
            && Belongs(entries[k].timestamps, owner, k)
            && Denotes(entries[k], Model[k]))
      && (entries[key] in owner ==> Belongs(entries[key], owner, key))
      && (entries[key].timestamps in owner ==> Belongs(entries[key].timestamps, owner, key))
      && Denotes(entries[key], w)
    }

    ghost method Settle(key: K, w: Window)
      requires Unsettled(key, w)
      modifies `owner, `Model
      ensures Valid()
      ensures owner == old(owner)[entries[key] := key][entries[key].timestamps := key]
      ensures Model == old(Model)[key := w]
    {
      hide Denotes;
      owner := owner[entries[key] := key][entries[key].timestamps := key];
      Model := Model[key := w];
    }

    method RecordEntry(key: K, now: int, limit: int) returns (ok: bool)
      requires Valid() && key in entries
      modifies Repr()
      ensures Valid() && GrewFresh() && entries == old(entries)
      ensures Model == old(Model)[key := RecordWindow(old(Model)[key], now, limit).0]
      ensures ok == RecordWindow(old(Model)[key], now, limit).1
    {
      hide RecordWindow, RateWindow.Contents;
      ok := entries[key].Record(now, limit);
      Settle(key, RecordWindow(Model[key], now, limit).0);
    }

    method AddEntry(key: K)
      requires Valid() && key !in entries
      modifies this
      ensures Valid() && GrewFresh()
      ensures Model == old(Model)[key := EMPTY_WINDOW]
    {
      var rw := new RateWindow();
      entries := entries[key := rw];
      Settle(key, EMPTY_WINDOW);
    }

    method RemoveEntry(key: K)
      requires Valid()
      modifies `entries, `Model
      ensures Valid()
      ensures Model == old(Model) - {key}
    {
      hide Denotes;
      entries := entries - {key};
      Model := Model - {key};
    }

    /** One turn of the sweep: prune an entry, and delete it if nothing is left. */
    method SweepEntry(key: K, now: int, window: Duration)
      requires Valid() && key in entries
      modifies Repr()
      ensures Valid() && owner == old(owner)
      ensures Model == SweptEntry(old(Model), key, now, window)
    {
      hide Denotes;
      var left := PruneEntry(key, now, window);
      if left == 0 {
        RemoveEntry(key);
      }
    }

    /** Visits the keys in no particular order, deleting the fully expired ones on the way. */
    method SweepExpired(now: int, window: Duration)
      requires Valid()
      modifies Repr()
      ensures Valid() && owner == old(owner)
      ensures Model == Sweep(old(Model), now, window)
    {
      hide SweptEntry;
      var todo := entries.Keys;
      ghost var start := Model;
      while todo != {}
        invariant Valid() && owner == old(owner)
        invariant todo <= start.Keys
        invariant Model == SweepExcept(start, todo, now, window)
        decreases todo
      {
        var k :| k in todo;
        SweepOneMore(start, todo, k, now, window);
        todo := todo - {k};
        SweepEntry(k, now, window);
      }
    }

    method MakeRoomFor(maxKeys: nat, now: int, window: Duration) returns (full: bool)
      requires Valid()
      modifies Repr()
      ensures Valid() && owner == old(owner)
      ensures Model == MakeRoom(old(Model), maxKeys, now, window)
      ensures full <==> |Model| >= maxKeys
    {
      hide Sweep, Denotes, Belongs;
      assert |entries.Keys| == |Model.Keys|;
      if |entries| >= maxKeys {
        SweepExpired(now, window);
        assert entries.Keys == Model.Keys;
        assert |entries.Keys| == |Model.Keys|;
      }
      full := |entries| >= maxKeys;
    }

    method Allow(maxKeys: nat, key: K, limit: int, now: int, window: Duration) returns (ok: bool)
      requires Valid()
      modifies Repr()
      ensures Valid() && GrewFresh()
      ensures Model == AllowInShard(old(Model), maxKeys, key, limit, now, window).0
      ensures ok == AllowInShard(old(Model), maxKeys, key, limit, now, window).1
    {
      hide RecordWindow, PruneWindow, RateWindow.Contents;
      ghost var room := Model;
      assert Model.Keys == entries.Keys;
      if key !in entries {
        var full := MakeRoomFor(maxKeys, now, window);
        room := Model;
        if full {
          return false;
        }
        assert room.Keys <= old(Model).Keys;
        AddEntry(key);
      } else {
        var _ := PruneEntry(key, now, window);
      }
      ghost var placed := Model;
      ok := RecordEntry(key, now, limit);
      OverwriteTwice(room, key, placed[key], Model[key]);
    }
  }

  // ----- The limiter -----

  /** A limiter as a value: its shards, in order. */
  datatype Limiter<!K> = Limiter(shards: seq<Shard<K>>, maxKeys: nat, hasher: K -> nat)
  {
    predicate Valid() {
      |shards| > 0
    }

    function ShardOf(key: K): (i: nat)
      requires Valid()
      ensures i < |shards|
    {
      hasher(key) % |shards|
    }
  }

  function AllowIn<K>(l: Limiter<K>, key: K, limit: int, now: int, window: Duration): (r: (Limiter<K>, bool))
    requires l.Valid()
    ensures r.0.Valid() && |r.0.shards| == |l.shards| && r.0.maxKeys == l.maxKeys && r.0.hasher == l.hasher
  {
    var i := l.ShardOf(key);
    var (m, ok) := AllowInShard(l.shards[i], l.maxKeys, key, limit, now, window);
    (l.(shards := l.shards[i := m]), ok)
  }

  class TimeWindowLimiter<K(==)> {
    const shards: seq<WindowShard<K>>
    const hasher: K -> nat
    const maxKeys: nat
    ghost var models: seq<Shard<K>>
    /** The shard each object belongs to: shards share nothing. */
    ghost var home: map<object?, int>

    ghost predicate Valid()
      reads this, home.Keys
    {
      && |shards| == |models| > 0
      && this !in home
      && (forall i :: 0 <= i < |shards| ==>
            && shards[i] in home && home[shards[i]] == i
            && (forall o :: o in shards[i].owner ==> o in home && home[o] == i)
            && shards[i].Valid()
            && shards[i].Model == models[i])
    }

    ghost function Model(): Limiter<K>
      reads this
    {
      Limiter(models, maxKeys, hasher)
    }

    constructor (numShards: nat, maxKeys: nat, hasher: K -> nat)
      requires numShards > 0
      ensures Valid() && fresh(home.Keys)
      ensures Model() == Limiter(seq(numShards, _ => map[]), maxKeys, hasher)
    {
      var made: seq<WindowShard<K>> := [];
      ghost var where: map<object?, int> := map[];
      for i := 0 to numShards
        invariant |made| == i
        invariant forall o :: o in where ==> fresh(o)
        invariant forall j :: 0 <= j < i ==>
                    && made[j] in where && where[made[j]] == j
                    && made[j].owner == map[] && made[j].Valid() && made[j].Model == map[]
      {
        var s := new WindowShard();
        made := made + [s];
        where := where[s := i];
      }
      this.shards, this.maxKeys, this.hasher := made, maxKeys, hasher;
      this.models := seq(numShards, _ => map[]);
      this.home := where;
    }

    /** All is valid, except that shard `i` now stands for `m` and may own new objects. */
    ghost predicate Unsettled(i: nat, m: Shard<K>)
      reads this, home.Keys, if i < |shards| then {shards[i]} + shards[i].owner.Keys else {}
    {
      && i < |shards| == |models|
      && this !in home
      && (forall j :: 0 <= j < |shards| ==>
            && shards[j] in home && home[shards[j]] == j
            && (j != i ==> forall o :: o in shards[j].owner ==> o in home && home[o] == j)
            && shards[j].Valid()
            && shards[j].Model == if j == i then m else models[j])
      && (forall o :: o in shards[i].owner && o in home ==> home[o] == i)
      && this !in shards[i].owner
    }

    ghost method Settle(i: nat, m: Shard<K>)
      requires Unsettled(i, m)
      modifies `models, `home
      ensures Valid()
      ensures models == old(models)[i := m]
      ensures home == old(home) + (map o | o in shards[i].owner :: i)
    {
      hide WindowShard.Valid;
      assert forall j :: 0 <= j < |shards| ==> this !in shards[j].Repr();
      models := models[i := m];
      home := home + (map o | o in shards[i].owner :: i);
      assert forall j :: 0 <= j < |shards| ==> shards[j].Valid() by {
        forall j | 0 <= j < |shards| ensures shards[j].Valid() {
          assert old(shards[j].Valid());
        }
      }
    }

    method Allow(key: K, limit: int, now: int, window: Duration) returns (ok: bool)
      requires Valid()
      modifies this, home.Keys
      ensures Valid() && (forall o :: o in home && o !in old(home) ==> fresh(o))
      ensures Model() == AllowIn(old(Model()), key, limit, now, window).0
      ensures ok == AllowIn(old(Model()), key, limit, now, window).1
    {
      hide AllowInShard, WindowShard.Valid;
      var i := hasher(key) % |shards|;
      ok := shards[i].Allow(maxKeys, key, limit, now, window);
      forall j | 0 <= j < |shards| && j != i ensures shards[j].Valid() && shards[j].Model == models[j] {
        assert old(shards[j].Valid());
        assert old(shards[j].Repr()) !! old(shards[i].Repr());
      }
      Settle(i, shards[i].Model);
    }
  }
}
