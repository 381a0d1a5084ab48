/** When a lookup hits, told from the calls and their times alone
    (apps/worker/src/worker.js:188-222). */
module WorkerCacheTimes {
  import opened Common
  import opened CacheKeys
  import opened WorkerCache

  // ---- versions ----

  /** The family's version entry is live at `now`: its last effective invalidation is less than
      an hour old. */
  predicate IsLive(ops: seq<Op>, family: string, now: int) {
    var n := LastInvalidation(ops, family);
    n > 0 && now < ops[n - 1].at + 3600
  }

  /** The version the last effective invalidation of a family set: one more than the version
      that was live then, or 2 if none was. */
  function LatestVersion(ops: seq<Op>, family: string): (v: nat) {
    if ops == [] then 1
    else
      var front, op := ops[..|ops| - 1], ops[|ops| - 1];
      if !TakesEffect(op) || VersionKey(op.key) != family then LatestVersion(front, family)
      else if IsLive(front, family, op.at) then LatestVersion(front, family) + 1
      else 2
  }

  /** The version in effect for a family: 1 while none is live. */
  function VersionAt(ops: seq<Op>, family: string, now: int): (v: nat) {
    if IsLive(ops, family, now) then LatestVersion(ops, family) else 1
  }

  /** The store holds, for a family, what its last effective invalidation wrote. */
  ghost predicate HoldsVersion(ops: seq<Op>, family: string) {
    var kv, n := Run(ops), LastInvalidation(ops, family);
    if n == 0 then family !in kv
    else
      && family in kv && LatestVersion(ops, family) >= 2
      && kv[family] == Entry(Decimal(LatestVersion(ops, family)), ops[n - 1].at + 3600)
  }

  lemma {:induction false} VersionsAreHeld(ops: seq<Op>, family: string)
    requires Sequential(ops) && "ver:" <= family
    ensures HoldsVersion(ops, family)
  {
    if ops != [] {
      var front, op := ops[..|ops| - 1], ops[|ops| - 1];
      VersionsAreHeld(front, family);
      assert ops == front + [op];
      hide *;
      assert PlainKey(op.key) by { LastIsPlain(ops); }
      HoldsVersionNext(front, op, family);
    }
  }

  lemma LastIsPlain(ops: seq<Op>)
    requires Sequential(ops) && ops != []
    ensures PlainKey(ops[|ops| - 1].key)
  {
  }

  lemma HoldsVersionNext(ops: seq<Op>, op: Op, family: string)
    requires HoldsVersion(ops, family) && PlainKey(op.key) && "ver:" <= family
    ensures HoldsVersion(ops + [op], family)
  {
    hide PlainKey, VersionKey, EntryKey, Decimal, Cached, LastInvalidation, NextVersion;
    assert (ops + [op])[..|ops|] == ops;
    LastInvalidationSnoc(ops, op, family);
    if op.Lookup? {
      PlainEntry(op.key, Get(Run(ops), VersionKey(op.key), op.writeAt).GetOr("1"));
    } else {
      NextOf(Get(Run(ops), VersionKey(op.key), op.at), LatestVersion(ops, VersionKey(op.key)));
    }
  }

  lemma NextOf(current: Option<string>, n: nat)
    ensures current == None ==> NextVersion(current) == Decimal(2)
    ensures current == Some(Decimal(n)) ==> NextVersion(current) == Decimal(n + 1)
  {
    NumberOfDecimal(1);
    NumberOfDecimal(n);
    assert Decimal(1) == "1" by { OneIsDecimal(); }
  }

  /** What a read of the version finds. */
  lemma VersionRead(ops: seq<Op>, family: string, now: int)
    requires Sequential(ops) && "ver:" <= family
    ensures Get(Run(ops), family, now) ==
      if IsLive(ops, family, now) then Some(Decimal(LatestVersion(ops, family))) else None
    ensures Get(Run(ops), family, now).GetOr("1") == Decimal(VersionAt(ops, family, now))
    ensures IsLive(ops, family, now) <==> VersionAt(ops, family, now) >= 2
  {
    hide Run, LastInvalidation, LatestVersion, Sequential, Decimal;
    VersionsAreHeld(ops, family);
    OneIsDecimal();
  }

  // ---- entries ----

  /** Call `j` fetches and stores what it fetched. */
  predicate Stores(ops: seq<Op>, j: nat)
    requires j < |ops|
  {
    Fetches(ops, j) && !ops[j].writeFails
  }

  /** The version call `j` stores under. */
  function StoredUnder(ops: seq<Op>, j: nat): (v: nat)
    requires j < |ops| && ops[j].Lookup?
  {
    VersionAt(ops[..j], VersionKey(ops[j].key), ops[j].writeAt)
  }

  /** Of the first `n` calls, `j` is the last to store for `key` under version `v`. */
  ghost predicate LastStore(ops: seq<Op>, n: nat, key: string, v: nat, j: nat)
    requires n <= |ops|
  {
    && j < n && StoresFor(ops, key, v, j)
    && forall m :: j < m < n ==> !StoresFor(ops, key, v, m)
  }

  predicate StoresFor(ops: seq<Op>, key: string, v: nat, j: nat)
    requires j < |ops|
  {
    Stores(ops, j) && ops[j].key == key && StoredUnder(ops, j) == v
  }

  /** The store holds, for a key and version, what the last call to store it wrote. */
  ghost predicate HoldsEntry(ops: seq<Op>, n: nat, key: string, v: nat)
    requires n <= |ops|
  {
    var kv, k := Run(ops[..n]), EntryKey(key, Decimal(v));
    && (k in kv ==> exists j: nat :: LastStore(ops, n, key, v, j))
    && (forall j: nat :: LastStore(ops, n, key, v, j) ==>
          k in kv && kv[k] == Entry(ops[j].fetched, ops[j].writeAt + ops[j].ttl))
  }

  lemma {:induction false} EntriesAreHeld(ops: seq<Op>, n: nat, key: string, v: nat)
    requires n <= |ops| && Sequential(ops) && PlainKey(key)
    ensures HoldsEntry(ops, n, key, v)
  {
    if n == 0 {
      assert ops[..0] == [];
    } else {
      EntriesAreHeld(ops, n - 1, key, v);
      hide *;
      HoldsEntryNext(ops, n - 1, key, v);
    }
  }

  /** Where call `n` stores, if it does. */
  lemma StoreTarget(ops: seq<Op>, n: nat)
    requires n < |ops| && Sequential(ops) && ops[n].Lookup?
    ensures
      var kv := Run(ops[..n]);
      && WriteKey(kv, ops[n].key, ops[n].writeAt) == EntryKey(ops[n].key, Decimal(StoredUnder(ops, n)))
  {
    hide Run, Decimal, VersionKey, IsLive, LatestVersion;
    var front := ops[..n];
    assert Sequential(front);
    VersionKeyIsVersionKey(ops[n].key);
    VersionRead(front, VersionKey(ops[n].key), ops[n].writeAt);
  }

  /** Entries of different keys or versions are stored apart. */
  lemma EntriesApart(k: string, v: nat, k': string, v': nat)
    ensures EntryKey(k, Decimal(v)) == EntryKey(k', Decimal(v')) <==> k == k' && v == v'
  {
    hide EntryKey;
    NumberOfDecimal(v);
    NumberOfDecimal(v');
    if EntryKey(k, Decimal(v)) == EntryKey(k', Decimal(v')) {
      EntryKeyInjective(k, Decimal(v), k', Decimal(v'));
    }
  }

  /** What call `n` does to the entry of a key and version. */
  lemma EntryAfter(ops: seq<Op>, n: nat, key: string, v: nat)
    requires n < |ops| && Sequential(ops) && PlainKey(key)
    ensures
      var kv, next, k := Run(ops[..n]), Run(ops[..n + 1]), EntryKey(key, Decimal(v));
      if StoresFor(ops, key, v, n) then
        k in next && next[k] == Entry(ops[n].fetched, ops[n].writeAt + ops[n].ttl)
      else (k in next <==> k in kv) && (k in kv ==> next[k] == kv[k])
  {
    hide Run, Decimal, VersionKey, EntryKey, Cached, WriteKey, NextVersion, StoredUnder, PlainKey;
    RunStep(ops, n);
    var op := ops[n];
    if op.Lookup? {
      StoreTarget(ops, n);
      EntriesApart(key, v, op.key, StoredUnder(ops, n));
    } else {
      VersionKeyIsVersionKey(op.key);
      PlainEntry(key, Decimal(v));
    }
  }

  lemma HoldsEntryNext(ops: seq<Op>, n: nat, key: string, v: nat)
    requires n < |ops| && Sequential(ops) && PlainKey(key) && HoldsEntry(ops, n, key, v)
    ensures HoldsEntry(ops, n + 1, key, v)
  {
    hide Run, Decimal, EntryKey, PlainKey, Cached, StoredUnder, Sequential;
    EntryAfter(ops, n, key, v);
    if StoresFor(ops, key, v, n) {
      assert LastStore(ops, n + 1, key, v, n);
      LastStoreIsOne(ops, n + 1, key, v, n);
    } else {
      forall j: nat ensures LastStore(ops, n + 1, key, v, j) <==> LastStore(ops, n, key, v, j) {}
      if EntryKey(key, Decimal(v)) in Run(ops[..n]) {
        var j: nat :| LastStore(ops, n, key, v, j);
        assert LastStore(ops, n + 1, key, v, j);
      }
    }
  }

  lemma LastStoreIsOne(ops: seq<Op>, n: nat, key: string, v: nat, j: nat)
    requires n <= |ops| && LastStore(ops, n, key, v, j)
    ensures j < n && ops[j].Lookup? && forall m: nat :: LastStore(ops, n, key, v, m) ==> m == j
  {
    hide Cached;
  }

  // ---- hits ----

  /** Call `i` is answered from what call `j` stored: `j` fetched for the same key and was the
      last to store under the version now live, and its time to live is not over. */
  ghost predicate ServedFrom(ops: seq<Op>, i: nat, j: nat)
    requires i < |ops| && ops[i].Lookup?
  {
    var family := VersionKey(ops[i].key);
    && IsLive(ops[..i], family, ops[i].readAt)
    && LastStore(ops, i, ops[i].key, LatestVersion(ops[..i], family), j)
    && ops[i].readAt < ops[j].writeAt + ops[j].ttl
  }

  /** In every run of non-overlapping calls a lookup is answered from the store exactly when
      its read does not fail and some earlier call serves it; and then it returns what that
      call fetched. */
  lemma HitsIff(ops: seq<Op>, i: nat)
    requires Sequential(ops) && i < |ops| && ops[i].Lookup?
    ensures !Fetches(ops, i) <==> !ops[i].readFails && exists j: nat :: ServedFrom(ops, i, j)
    ensures forall j: nat :: !Fetches(ops, i) && ServedFrom(ops, i, j) ==> Returned(ops, i) == ops[j].fetched
  {
    hide Run, Decimal, VersionKey, EntryKey, PlainKey, LastStore, IsLive, LatestVersion;
    var front, op := ops[..i], ops[i];
    var family := VersionKey(op.key);
    assert Sequential(front) && PlainKey(op.key);
    VersionKeyIsVersionKey(op.key);
    VersionRead(front, family, op.readAt);
    if IsLive(front, family, op.readAt) {
      var v := LatestVersion(front, family);
      EntriesAreHeld(ops, i, op.key, v);
      if EntryKey(op.key, Decimal(v)) in Run(front) {
        var j: nat :| LastStore(ops, i, op.key, v, j);
        LastStoreIsOne(ops, i, op.key, v, j);
        assert ServedFrom(ops, i, j) <==> op.readAt < ops[j].writeAt + ops[j].ttl;
      }
    } else {
      NoLiveVersionNoHit(front, op);
    }
  }

  /** What call `i` returns was fetched and stored by call `j` for the same key, less than its
      time to live ago. */
  predicate RecentFor(ops: seq<Op>, i: nat, j: nat)
    requires i < |ops| && j < |ops| && ops[i].Lookup?
  {
    && Stores(ops, j) && ops[j].key == ops[i].key && Returned(ops, i) == ops[j].fetched
    && ops[i].readAt < ops[j].writeAt + ops[j].ttl
  }

  /** So no value is returned once its time to live is over: what a lookup returns without
      fetching was fetched for its key less than that call's time to live before. */
  lemma HitsAreRecent(ops: seq<Op>, i: nat)
    requires Sequential(ops) && i < |ops| && ops[i].Lookup? && !Fetches(ops, i)
    ensures exists j: nat :: j < i && RecentFor(ops, i, j)
  {
    hide Run, VersionKey, PlainKey, IsLive, LatestVersion, Sequential, Fetches;
    HitsIff(ops, i);
    var j: nat :| ServedFrom(ops, i, j);
    assert StoresFor(ops, ops[i].key, LatestVersion(ops[..i], VersionKey(ops[i].key)), j);
    assert RecentFor(ops, i, j);
  }
}
