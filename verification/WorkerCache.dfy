/** The versioned cache of apps/worker/src/worker.js:181-222: `getCachedOrFetch` and
    `invalidateCache` over a key-value store whose entries expire. */
module WorkerCache {
  import opened Common
  import opened CacheKeys

  /** A JSON text; never empty. */
  type Json = s: string | s != "" witness "0"

  datatype Entry = Entry(value: string, expires: int)

  type KV = map<string, Entry>

  /** `KV.get(key)`. */
  function Get(kv: KV, key: string, now: int): (r: Option<string>) {
    if key in kv && now < kv[key].expires then Some(kv[key].value) else None
  }

  /** `KV.put(key, value, { expirationTtl })`. */
  function Put(kv: KV, key: string, value: string, now: int, ttl: nat): (r: KV) {
    kv[key := Entry(value, now + ttl)]
  }

  const VERSION_TTL := 3600

  /** One completed call.  A lookup reads at `readAt`; if that misses, or the store throws
      (`readFails`), it fetches, and at `writeAt` stores what it fetched unless the store
      throws then (`writeFails`).  The times of later calls are not earlier. */
  datatype Op =
    | Lookup(key: string, readAt: int, writeAt: int, ttl: nat, fetched: Json, readFails: bool, writeFails: bool)
    | Invalidate(key: string, at: int, fails: bool)

  // ---- the calls as functions ----

  function EffectiveKey(kv: KV, key: string, now: int): (r: string) {
    match Get(kv, VersionKey(key), now)
    case Some(v) => EntryKey(key, v)
    case None => key
  }

  /** What the first half of a lookup finds. */
  function Cached(kv: KV, op: Op): (r: Option<string>)
    requires op.Lookup?
  {
    if op.readFails then None else Get(kv, EffectiveKey(kv, op.key, op.readAt), op.readAt)
  }

  function LookupResult(kv: KV, op: Op): (r: string)
    requires op.Lookup?
  {
    Cached(kv, op).GetOr(op.fetched)
  }

  function WriteKey(kv: KV, key: string, now: int): (r: string) {
    EntryKey(key, Get(kv, VersionKey(key), now).GetOr("1"))
  }

  function NextVersion(current: Option<string>): (r: string) {
    var n := current.GetOr("1");
    Decimal((if AllDigits(n) then Number(n) else 0) + 1)
  }

  function Apply(kv: KV, op: Op): (r: KV) {
    match op
    case Lookup(key, _, now, ttl, fetched, _, writeFails) =>
      if Cached(kv, op).Some? || writeFails then kv else Put(kv, WriteKey(kv, key, now), fetched, now, ttl)
    case Invalidate(key, now, fails) =>
      if fails then kv
      else Put(kv, VersionKey(key), NextVersion(Get(kv, VersionKey(key), now)), now, VERSION_TTL)
  }

  /** The worker's environment. */
  class Worker {
    const bound: bool // whether RATE_LIMIT_KV is bound
    var kv: KV

    constructor (bound: bool)
      ensures this.bound == bound && kv == map[]
    {
      this.bound := bound;
      kv := map[];
    }

    method GetCachedOrFetch(op: Op) returns (r: string, ghost didFetch: bool)
      requires op.Lookup?
      modifies this
      ensures bound ==> r == LookupResult(old(kv), op) && kv == Apply(old(kv), op)
      ensures !bound ==> r == op.fetched && kv == old(kv)
      ensures didFetch <==> !bound || Cached(old(kv), op).None?
    {
      didFetch := true;
      if !bound { return op.fetched, true; }
      if !op.readFails {
        var versionKey := VersionKey(op.key);
        var version := Get(kv, versionKey, op.readAt);
        var effectiveKey := if version.Some? then EntryKey(op.key, version.value) else op.key;
        var cached := Get(kv, effectiveKey, op.readAt);
        if cached.Some? { return cached.value, false; }
      }
      r := op.fetched;
      if !op.writeFails {
        var versionKey := VersionKey(op.key);
        var version := Get(kv, versionKey, op.writeAt);
        var effectiveKey := EntryKey(op.key, if version.Some? then version.value else "1");
        kv := Put(kv, effectiveKey, r, op.writeAt, op.ttl);
      }
    }

    method InvalidateCache(op: Op)
      requires op.Invalidate?
      modifies this
      ensures kv == if bound then Apply(old(kv), op) else old(kv)
    {
      if !bound { return; }
      if op.fails { return; }
      var versionKey := VersionKey(op.key);
      var currentVersion := Get(kv, versionKey, op.at);
      kv := Put(kv, versionKey, NextVersion(currentVersion), op.at, VERSION_TTL);
    }
  }

  // ---- runs ----

  /** The store after a run of calls that starts with an empty one. */
  function Run(ops: seq<Op>): (kv: KV) {
    if ops == [] then map[] else Apply(Run(ops[..|ops| - 1]), ops[|ops| - 1])
  }

  function Start(op: Op): (t: int) {
    if op.Lookup? then op.readAt else op.at
  }

  function End(op: Op): (t: int) {
    if op.Lookup? then op.writeAt else op.at
  }

  /** The calls do not overlap, and their keys are plain. */
  ghost predicate Sequential(ops: seq<Op>) {
    && (forall i :: 0 <= i < |ops| ==> Start(ops[i]) <= End(ops[i]) && PlainKey(ops[i].key))
    && (forall i, j :: 0 <= i < j < |ops| ==> End(ops[i]) <= Start(ops[j]))
  }

  predicate TakesEffect(op: Op) {
    op.Invalidate? && !op.fails
  }

  /** One more than the place of the last effective invalidation of a family, or 0. */
  function LastInvalidation(ops: seq<Op>, family: string): (n: nat)
    ensures n <= |ops|
    ensures n > 0 ==> TakesEffect(ops[n - 1]) && VersionKey(ops[n - 1].key) == family
    ensures forall i :: n <= i < |ops| ==> !(TakesEffect(ops[i]) && VersionKey(ops[i].key) == family)
  {
    if ops == [] then 0
    else
      var last := ops[|ops| - 1];
      if TakesEffect(last) && VersionKey(last.key) == family then |ops|
      else LastInvalidation(ops[..|ops| - 1], family)
  }

  /** Where an entry came from: the call that wrote it and the version it was written under. */
  datatype Origin = Origin(index: nat, version: nat)

  function CurrentVersion(kv: KV, key: string, now: int): (n: nat) {
    match Get(kv, VersionKey(key), now)
    case Some(v) => if AllDigits(v) then Number(v) else 0
    case None => 1
  }

  /** The origins of the entries the run has left in the store. */
  function Origins(ops: seq<Op>): (r: map<string, Origin>) {
    if ops == [] then map[]
    else
      var before, op := ops[..|ops| - 1], ops[|ops| - 1];
      var kv := Run(before);
      if op.Lookup? && Cached(kv, op).None? && !op.writeFails
      then Origins(before)[WriteKey(kv, op.key, op.writeAt) := Origin(|before|, CurrentVersion(kv, op.key, op.writeAt))]
      else Origins(before)
  }

  // ---- what the store looks like after any run ----

  ghost predicate VersionCell(kv: KV, key: string) {
    key in kv ==> exists n: nat :: n >= 2 && kv[key].value == Decimal(n)
  }

  /** An entry and its origin belong together. */
  ghost predicate EntryCell(ops: seq<Op>, kv: KV, key: string, o: Origin) {
    && o.index < |ops|
    && ops[o.index].Lookup?
    && key == EntryKey(ops[o.index].key, Decimal(o.version))
    && !("ver:" <= key)
    && key in kv && kv[key].value == ops[o.index].fetched
  }

  /** Every key in the store is a version key with a proper version, or has an origin. */
  ghost predicate Shape(ops: seq<Op>) {
    var kv, origins := Run(ops), Origins(ops);
    && (forall key :: key in kv ==> "ver:" <= key || key in origins)
    && (forall key :: "ver:" <= key ==> VersionCell(kv, key))
    && (forall key :: key in origins ==> EntryCell(ops, kv, key, origins[key]))
  }

  lemma VersionKeyIsVersionKey(k: string)
    ensures "ver:" <= VersionKey(k)
  {
    VersionKeyTail(k);
  }

  /** The version in effect, as a text and as a number. */
  lemma CurrentVersionPrints(kv: KV, key: string, now: int)
    requires VersionCell(kv, VersionKey(key))
    ensures Get(kv, VersionKey(key), now).GetOr("1") == Decimal(CurrentVersion(kv, key, now))
    ensures CurrentVersion(kv, key, now) >= 1
    ensures Get(kv, VersionKey(key), now).Some? ==> CurrentVersion(kv, key, now) >= 2
    ensures NextVersion(Get(kv, VersionKey(key), now)) == Decimal(CurrentVersion(kv, key, now) + 1)
  {
    NumberOfDecimal(1);
    if Get(kv, VersionKey(key), now).Some? {
      var n: nat :| n >= 2 && kv[VersionKey(key)].value == Decimal(n);
      NumberOfDecimal(n);
    }
  }

  lemma {:induction false} ShapeAlways(ops: seq<Op>)
    requires Sequential(ops)
    ensures Shape(ops)
  {
    hide Shape, PlainKey;
    if ops == [] {
      EmptyShape();
    } else {
      var front, op := ops[..|ops| - 1], ops[|ops| - 1];
      ShapeAlways(front);
      ShapeStep(front, op);
      assert ops == front + [op];
    }
  }

  lemma EmptyShape()
    ensures Shape([])
  {
  }

  lemma ShapeStep(ops: seq<Op>, op: Op)
    requires Shape(ops) && PlainKey(op.key)
    ensures Shape(ops + [op])
  {
    hide EntryKey, Decimal, VersionKey, NextVersion, CurrentVersion, PlainKey;
    var ops' := ops + [op];
    assert ops'[..|ops|] == ops;
    var kv, origins := Run(ops), Origins(ops);
    VersionKeyIsVersionKey(op.key);
    if op.Lookup? {
      var key, n := WriteKey(kv, op.key, op.writeAt), CurrentVersion(kv, op.key, op.writeAt);
      CurrentVersionPrints(kv, op.key, op.writeAt);
      PlainEntry(op.key, Decimal(n));
      forall k | k in Origins(ops') ensures EntryCell(ops', Run(ops'), k, Origins(ops')[k]) {
        if k in origins { assert EntryCell(ops, kv, k, origins[k]); }
      }
      forall k | "ver:" <= k ensures VersionCell(Run(ops'), k) {
        assert VersionCell(kv, k);
      }
    } else {
      CurrentVersionPrints(kv, op.key, op.at);
      forall k | k in Origins(ops') ensures EntryCell(ops', Run(ops'), k, Origins(ops')[k]) {
        assert EntryCell(ops, kv, k, origins[k]);
      }
      forall k | "ver:" <= k ensures VersionCell(Run(ops'), k) {
        assert VersionCell(kv, k);
      }
    }
  }

  lemma PlainEntry(k: string, v: string)
    requires PlainKey(k)
    ensures !("ver:" <= EntryKey(k, v))
  {
    EntryIsNoVersionKey(k, v);
  }

  // ---- freshness ----

  /** Another plain key of the family of `op` has a live entry under the given version. */
  ghost predicate LiveUnder(kv: KV, op: Op, q: string, version: string, now: int) {
    PlainKey(q) && VersionKey(q) == VersionKey(op.key) && Get(kv, EntryKey(q, version), now).Some?
  }

  /** An invalidation would bring back a version under which the family still has a live
      entry; it can only happen after the family's version entry has expired. */
  ghost predicate Reuses(kv: KV, op: Op)
    requires op.Invalidate?
  {
    exists q :: LiveUnder(kv, op, q, NextVersion(Get(kv, VersionKey(op.key), op.at)), op.at)
  }

  /** A key of the family of `op` would be answered from the store. */
  ghost predicate WouldHit(kv: KV, op: Op, q: string, now: int) {
    PlainKey(q) && VersionKey(q) == VersionKey(op.key) && Get(kv, EffectiveKey(kv, q, now), now).Some?
  }

  /** An invalidation fails to hide some entry of its family exactly when it reuses a
      version: right after it, some key of the family is answered from the store iff so. */
  lemma InvalidationHidesIffNotReuses(kv: KV, op: Op)
    requires TakesEffect(op)
    ensures Reuses(kv, op) <==> exists q :: WouldHit(Apply(kv, op), op, q, op.at)
  {
    hide EntryKey, VersionKey, NextVersion, PlainKey;
    var version := NextVersion(Get(kv, VersionKey(op.key), op.at));
    VersionKeyIsVersionKey(op.key);
    forall q | PlainKey(q) && VersionKey(q) == VersionKey(op.key)
      ensures LiveUnder(kv, op, q, version, op.at) <==> WouldHit(Apply(kv, op), op, q, op.at)
    {
      PlainEntry(q, version);
    }
  }

  /** No invalidation of the run reuses a version. */
  ghost predicate NeverReuses(ops: seq<Op>) {
    forall i :: 0 <= i < |ops| && TakesEffect(ops[i]) ==> !Reuses(Run(ops[..i]), ops[i])
  }

  /** A live entry stored under the current version was fetched after the last invalidation. */
  ghost predicate FreshCell(ops: seq<Op>, key: string, o: Origin, now: int)
    requires o.index < |ops|
  {
    var kv, family := Run(ops), VersionKey(ops[o.index].key);
    Get(kv, key, now).Some? && family in kv && kv[family].value == Decimal(o.version)
    ==> LastInvalidation(ops, family) <= o.index
  }

  ghost predicate Fresh(ops: seq<Op>, now: int)
    requires Shape(ops)
  {
    forall key :: key in Origins(ops) ==> FreshCell(ops, key, Origins(ops)[key], now)
  }

  lemma LastInvalidationSnoc(ops: seq<Op>, op: Op, family: string)
    ensures
      LastInvalidation(ops + [op], family) ==
      if TakesEffect(op) && VersionKey(op.key) == family then |ops| + 1 else LastInvalidation(ops, family)
  {
    assert (ops + [op])[..|ops|] == ops;
  }

  lemma DecimalInjective(m: nat, n: nat)
    requires Decimal(m) == Decimal(n)
    ensures m == n
  {
    NumberOfDecimal(m);
    NumberOfDecimal(n);
  }

  lemma FreshAfterLookup(ops: seq<Op>, op: Op, now: int)
    requires Shape(ops) && Shape(ops + [op]) && Fresh(ops, now)
    requires op.Lookup? && PlainKey(op.key) && now <= End(op)
    ensures Fresh(ops + [op], End(op))
  {
    hide EntryKey, Decimal, VersionKey, PlainKey, Cached, CurrentVersion, LastInvalidation;
    var ops' := ops + [op];
    assert ops'[..|ops|] == ops;
    var kv := Run(ops);
    VersionKeyIsVersionKey(op.key);
    PlainEntry(op.key, Get(kv, VersionKey(op.key), op.writeAt).GetOr("1"));
    forall key | key in Origins(ops')
      ensures FreshCell(ops', key, Origins(ops')[key], End(op))
    {
      var o := Origins(ops')[key];
      assert EntryCell(ops', Run(ops'), key, o);
      LastInvalidationSnoc(ops, op, VersionKey(ops'[o.index].key));
      VersionKeyIsVersionKey(ops'[o.index].key);
      if o.index < |ops| {
        assert FreshCell(ops, key, o, now);
      }
    }
  }

  lemma FreshCellAfterInvalidate(ops: seq<Op>, op: Op, key: string, o: Origin, now: int)
    requires op.Invalidate? && now <= op.at
    requires EntryCell(ops, Run(ops), key, o) && FreshCell(ops, key, o, now)
    requires PlainKey(ops[o.index].key)
    requires TakesEffect(op) ==> !Reuses(Run(ops), op)
    ensures FreshCell(ops + [op], key, o, op.at)
  {
    hide EntryKey, Decimal, VersionKey, PlainKey, NextVersion, LastInvalidation, Origins;
    var kv, q := Run(ops), ops[o.index].key;
    assert (ops + [op])[..|ops|] == ops;
    VersionKeyIsVersionKey(op.key);
    LastInvalidationSnoc(ops, op, VersionKey(q));
    if TakesEffect(op) && VersionKey(q) == VersionKey(op.key) {
      assert !LiveUnder(kv, op, q, NextVersion(Get(kv, VersionKey(op.key), op.at)), op.at);
    }
  }

  lemma FreshAfterInvalidate(ops: seq<Op>, op: Op, now: int)
    requires Shape(ops) && Shape(ops + [op]) && Fresh(ops, now)
    requires op.Invalidate? && now <= op.at
    requires forall i :: 0 <= i < |ops| ==> PlainKey(ops[i].key)
    requires TakesEffect(op) ==> !Reuses(Run(ops), op)
    ensures Fresh(ops + [op], op.at)
  {
    hide EntryKey, Decimal, VersionKey, PlainKey, NextVersion, LastInvalidation, Reuses, FreshCell, Run;
    assert (ops + [op])[..|ops|] == ops;
    assert Origins(ops + [op]) == Origins(ops);
    forall key | key in Origins(ops)
      ensures FreshCell(ops + [op], key, Origins(ops)[key], op.at)
    {
      FreshCellAfterInvalidate(ops, op, key, Origins(ops)[key], now);
    }
  }

  lemma {:induction false} FreshAlways(ops: seq<Op>)
    requires ops != [] && Sequential(ops) && NeverReuses(ops)
    ensures Shape(ops) && Fresh(ops, End(ops[|ops| - 1]))
  {
    hide Fresh, Shape, Reuses, Run;
    var front, op := ops[..|ops| - 1], ops[|ops| - 1];
    assert ops == front + [op];
    ShapeAlways(ops);
    ShapeAlways(front);
    var now := Start(op);
    if front == [] {
      EmptyIsFresh(now);
    } else {
      assert forall i :: 0 <= i < |front| && TakesEffect(front[i]) ==> front[..i] == ops[..i];
      assert NeverReuses(front);
      FreshAlways(front);
      now := End(front[|front| - 1]);
    }
    if op.Lookup? { FreshAfterLookup(front, op, now); } else { FreshAfterInvalidate(front, op, now); }
  }

  lemma EmptyIsFresh(now: int)
    ensures Shape([]) && Fresh([], now)
  {
  }

  /** The value a lookup of the run returns. */
  function Returned(ops: seq<Op>, i: nat): (r: string)
    requires i < |ops| && ops[i].Lookup?
  {
    LookupResult(Run(ops[..i]), ops[i])
  }

  /** Call `j` is a lookup that misses, and so fetches. */
  predicate Fetches(ops: seq<Op>, j: nat)
    requires j < |ops|
  {
    ops[j].Lookup? && Cached(Run(ops[..j]), ops[j]).None?
  }

  /** What call `i` returns was fetched by call `j`, for the same key, and no effective
      invalidation of the key's family lies between them. */
  ghost predicate FetchedBy(ops: seq<Op>, i: nat, j: nat)
    requires i < |ops| && ops[i].Lookup?
  {
    && j <= i && Fetches(ops, j) && ops[j].key == ops[i].key
    && Returned(ops, i) == ops[j].fetched
    && forall m :: j <= m < i ==> !(TakesEffect(ops[m]) && VersionKey(ops[m].key) == VersionKey(ops[i].key))
  }

  /** Every entry was stored by a call that fetched. */
  lemma {:induction false} OriginsFetch(ops: seq<Op>, key: string)
    requires key in Origins(ops)
    ensures Origins(ops)[key].index < |ops| && Fetches(ops, Origins(ops)[key].index)
  {
    hide Cached, WriteKey, CurrentVersion;
    var front := ops[..|ops| - 1];
    if key in Origins(front) {
      OriginsFetch(front, key);
      assert front[..Origins(front)[key].index] == ops[..Origins(front)[key].index];
    }
  }

  /** A hit is on an entry of the looked-up key, stored under the live version. */
  lemma HitComesFromOrigin(ops: seq<Op>, op: Op)
    requires Shape(ops) && op.Lookup? && PlainKey(op.key)
    requires Cached(Run(ops), op).Some?
    ensures
      var kv, key := Run(ops), EffectiveKey(Run(ops), op.key, op.readAt);
      && key in Origins(ops) && EntryCell(ops, kv, key, Origins(ops)[key])
      && ops[Origins(ops)[key].index].key == op.key
      && Get(kv, VersionKey(op.key), op.readAt) == Some(Decimal(Origins(ops)[key].version))
  {
    hide Decimal, VersionKey, CurrentVersion, NextVersion, LastInvalidation, Run, Origins;
    var kv, origins := Run(ops), Origins(ops);
    var key := EffectiveKey(kv, op.key, op.readAt);
    VersionKeyIsVersionKey(op.key);
    CurrentVersionPrints(kv, op.key, op.readAt);
    var version := Get(kv, VersionKey(op.key), op.readAt);
    if version.Some? {
      PlainEntry(op.key, version.value);
      assert key in origins;
      var o := origins[key];
      assert EntryCell(ops, kv, key, o);
      EntryKeyInjective(op.key, version.value, ops[o.index].key, Decimal(o.version));
    }
  }

  /** In any run of non-overlapping calls whose invalidations never reuse a version, what a
      lookup returns was fetched for that very key after the last effective invalidation of
      its family, whatever the store failed at. */
  lemma CachedValuesAreFresh(ops: seq<Op>, i: nat)
    requires Sequential(ops) && NeverReuses(ops)
    requires i < |ops| && ops[i].Lookup?
    ensures exists j :: FetchedBy(ops, i, j)
  {
    hide Run, Origins, Shape, Fresh, EffectiveKey, EntryKey, Decimal, VersionKey, Cached;
    var before, op := ops[..i], ops[i];
    if Cached(Run(before), op).None? {
      assert FetchedBy(ops, i, i);
    } else {
      assert forall m :: 0 <= m < i && TakesEffect(before[m]) ==> before[..m] == ops[..m];
      assert Sequential(before) && NeverReuses(before);
      ShapeAlways(before);
      HitComesFromOrigin(before, op);
      FreshAlways(before);
      HitIsFresh(before, op, End(before[i - 1]));
      var key := EffectiveKey(Run(before), op.key, op.readAt);
      var o := Origins(before)[key];
      OriginsFetch(before, key);
      assert before[..o.index] == ops[..o.index];
      HitReturns(before, op, o);
      assert FetchedBy(ops, i, o.index);
    }
  }

  lemma HitReturns(ops: seq<Op>, op: Op, o: Origin)
    requires op.Lookup? && Cached(Run(ops), op).Some?
    requires EntryCell(ops, Run(ops), EffectiveKey(Run(ops), op.key, op.readAt), o)
    ensures LookupResult(Run(ops), op) == ops[o.index].fetched
  {
    hide Run, EffectiveKey, EntryKey, Decimal;
  }

  lemma HitIsFresh(ops: seq<Op>, op: Op, now: int)
    requires Shape(ops) && Fresh(ops, now) && op.Lookup? && PlainKey(op.key) && now <= op.readAt
    requires Cached(Run(ops), op).Some?
    ensures
      var key := EffectiveKey(Run(ops), op.key, op.readAt);
      && key in Origins(ops)
      && LastInvalidation(ops, VersionKey(op.key)) <= Origins(ops)[key].index
  {
    hide Run, Origins, Shape, EntryKey, Decimal, VersionKey, LastInvalidation;
    HitComesFromOrigin(ops, op);
    var key := EffectiveKey(Run(ops), op.key, op.readAt);
    assert FreshCell(ops, key, Origins(ops)[key], now);
  }

  /** While no version of its family is live, a lookup fetches. */
  lemma NoLiveVersionNoHit(ops: seq<Op>, op: Op)
    requires Sequential(ops) && op.Lookup? && PlainKey(op.key)
    requires Get(Run(ops), VersionKey(op.key), op.readAt).None?
    ensures Cached(Run(ops), op).None?
  {
    hide Run, Origins, Shape, Decimal, VersionKey;
    ShapeAlways(ops);
    if Cached(Run(ops), op).Some? { HitComesFromOrigin(ops, op); }
  }

  /** The source does not change between two fetches of a key unless its family is
      invalidated in between. */
  ghost predicate ChangesAreInvalidated(ops: seq<Op>) {
    forall i, j :: 0 <= j <= i < |ops| && ops[i].Lookup? && ops[j].Lookup? && ops[i].key == ops[j].key
      && (forall m :: j <= m < i ==> !(TakesEffect(ops[m]) && VersionKey(ops[m].key) == VersionKey(ops[i].key)))
      ==> ops[i].fetched == ops[j].fetched
  }

  /** If every change of the source is invalidated, the cache is invisible: each lookup
      returns what a plain fetch would have returned. */
  lemma CacheIsTransparent(ops: seq<Op>, i: nat)
    requires Sequential(ops) && NeverReuses(ops) && ChangesAreInvalidated(ops)
    requires i < |ops| && ops[i].Lookup?
    ensures Returned(ops, i) == ops[i].fetched
  {
    hide Returned, VersionKey, Sequential, NeverReuses;
    CachedValuesAreFresh(ops, i);
    var j :| FetchedBy(ops, i, j);
  }

  // ---- freshness fails exactly when a version is reused ----

  /** After an invalidation that reuses a version, some lookup could come next whose answer
      nobody has fetched since. */
  lemma ReuseServesStale(ops: seq<Op>) returns (op: Op)
    requires ops != [] && Sequential(ops) && TakesEffect(ops[|ops| - 1])
    requires Reuses(Run(ops[..|ops| - 1]), ops[|ops| - 1])
    ensures op.Lookup? && Sequential(ops + [op])
    ensures forall j :: !FetchedBy(ops + [op], |ops|, j)
  {
    hide Run, Apply, Reuses, EntryKey, VersionKey, NextVersion, PlainKey, EffectiveKey;
    var n, last := |ops| - 1, ops[|ops| - 1];
    var kv := Run(ops[..n]);
    InvalidationHidesIffNotReuses(kv, last);
    var q :| WouldHit(Apply(kv, last), last, q, last.at);
    op := Lookup(q, last.at, last.at, 0, "0", false, false);
    var longer := ops + [op];
    assert ops[..n + 1] == ops && longer[..|ops|] == ops;
    RunStep(ops, n);
    assert !Fetches(longer, |ops|);
    forall j | 0 <= j <= |ops| ensures !FetchedBy(longer, |ops|, j) {
      assert longer[n] == last && VersionKey(longer[n].key) == VersionKey(q);
    }
  }

  /** Whatever lookup comes next at any point of the run, its answer is fresh. */
  ghost predicate AlwaysFresh(ops: seq<Op>) {
    forall n: nat, op :: FreshNext(ops, n, op)
  }

  ghost predicate FreshNext(ops: seq<Op>, n: nat, op: Op) {
    n <= |ops| && op.Lookup? && Sequential(ops[..n] + [op]) ==> exists j :: FetchedBy(ops[..n] + [op], n, j)
  }

  /** A run of non-overlapping calls is fresh at every point exactly when none of its
      invalidations reuses a version. */
  lemma AlwaysFreshIffNeverReuses(ops: seq<Op>)
    requires Sequential(ops)
    ensures AlwaysFresh(ops) <==> NeverReuses(ops)
  {
    hide Run, Reuses, FetchedBy, PlainKey;
    if NeverReuses(ops) {
      forall n: nat, op ensures FreshNext(ops, n, op) {
        if n <= |ops| && op.Lookup? && Sequential(ops[..n] + [op]) { FreshAfterPrefix(ops, n, op); }
      }
    } else {
      var i :| 0 <= i < |ops| && TakesEffect(ops[i]) && Reuses(Run(ops[..i]), ops[i]);
      var cut := ops[..i + 1];
      assert cut[..i] == ops[..i];
      var op := ReuseServesStale(cut);
      assert !FreshNext(ops, i + 1, op);
    }
  }

  lemma FreshAfterPrefix(ops: seq<Op>, n: nat, op: Op)
    requires NeverReuses(ops) && n <= |ops| && op.Lookup? && Sequential(ops[..n] + [op])
    ensures exists j :: FetchedBy(ops[..n] + [op], n, j)
  {
    hide Run, Reuses, FetchedBy, Sequential;
    var longer := ops[..n] + [op];
    assert forall i :: 0 <= i < n ==> longer[..i] == ops[..i] && longer[i] == ops[i];
    CachedValuesAreFresh(longer, n);
  }

  // ---- when a version entry outlives the next invalidation ----

  /** The version entry its family has, if any, has not expired when `op` invalidates it. */
  ghost predicate Outlives(ops: seq<Op>, op: Op) {
    var n := LastInvalidation(ops, VersionKey(op.key));
    TakesEffect(op) && n > 0 ==> op.at < ops[n - 1].at + VERSION_TTL
  }

  /** Each family is invalidated again, if at all, before its version entry expires. */
  ghost predicate VersionsOutlive(ops: seq<Op>) {
    forall i :: 0 <= i < |ops| ==> Outlives(ops[..i], ops[i])
  }

  lemma PrefixOutlives(ops: seq<Op>, i: nat)
    requires i <= |ops| && Sequential(ops) && VersionsOutlive(ops)
    ensures Sequential(ops[..i]) && VersionsOutlive(ops[..i])
  {
    hide Outlives, PlainKey;
    assert forall m :: 0 <= m < i ==> ops[..i][..m] == ops[..m] && ops[..i][m] == ops[m];
  }

  /** The version entry of a family was written by its last effective invalidation. */
  ghost predicate VersionHeader(ops: seq<Op>, family: string) {
    var kv, n := Run(ops), LastInvalidation(ops, family);
    (family in kv <==> n > 0) && (n > 0 ==> kv[family].expires == ops[n - 1].at + VERSION_TTL)
  }

  /** No entry of the family is stored under a later version. */
  ghost predicate VersionsBelow(ops: seq<Op>, family: string)
    requires Shape(ops)
  {
    forall key :: key in Origins(ops) && VersionKey(ops[Origins(ops)[key].index].key) == family
      ==> Origins(ops)[key].version <= VersionNumber(Run(ops), family)
  }

  ghost predicate VersionLine(ops: seq<Op>, family: string)
    requires Shape(ops)
  {
    VersionHeader(ops, family) && VersionsBelow(ops, family)
  }

  function VersionNumber(kv: KV, family: string): (n: nat) {
    if family in kv && AllDigits(kv[family].value) then Number(kv[family].value) else 1
  }

  lemma VersionHeaderStep(ops: seq<Op>, op: Op, family: string)
    requires PlainKey(op.key) && VersionHeader(ops, family) && "ver:" <= family
    ensures VersionHeader(ops + [op], family)
  {
    hide EntryKey, Decimal, VersionKey, PlainKey, LastInvalidation, NextVersion;
    assert (ops + [op])[..|ops|] == ops;
    VersionKeyIsVersionKey(op.key);
    LastInvalidationSnoc(ops, op, family);
    if op.Lookup? { PlainEntry(op.key, Get(Run(ops), VersionKey(op.key), op.writeAt).GetOr("1")); }
  }

  /** While its entry has not expired, the current version is the stored one. */
  lemma CurrentIsStored(ops: seq<Op>, op: Op)
    requires VersionHeader(ops, VersionKey(op.key)) && Outlives(ops, op) && TakesEffect(op)
    requires VersionCell(Run(ops), VersionKey(op.key))
    ensures CurrentVersion(Run(ops), op.key, op.at) == VersionNumber(Run(ops), VersionKey(op.key))
  {
    hide Run, VersionKey, LastInvalidation;
    CurrentVersionPrints(Run(ops), op.key, op.at);
  }

  lemma VersionsBelowAfterLookup(ops: seq<Op>, op: Op, family: string)
    requires Shape(ops) && Shape(ops + [op]) && PlainKey(op.key) && op.Lookup?
    requires VersionsBelow(ops, family) && "ver:" <= family
    ensures VersionsBelow(ops + [op], family)
  {
    hide EntryKey, Decimal, VersionKey, PlainKey, Number, Cached;
    var ops' := ops + [op];
    assert ops'[..|ops|] == ops;
    var kv := Run(ops);
    VersionKeyIsVersionKey(op.key);
    PlainEntry(op.key, Get(kv, VersionKey(op.key), op.writeAt).GetOr("1"));
    VersionNumberIsPositive(ops, family);
    assert VersionNumber(Run(ops'), family) == VersionNumber(kv, family);
    forall key | key in Origins(ops') && VersionKey(ops'[Origins(ops')[key].index].key) == family
      ensures Origins(ops')[key].version <= VersionNumber(kv, family)
    {
      var o := Origins(ops')[key];
      assert EntryCell(ops', Run(ops'), key, o);
      if o.index < |ops| { assert key in Origins(ops) && Origins(ops)[key] == o; }
    }
  }

  lemma VersionsBelowAfterInvalidate(ops: seq<Op>, op: Op, family: string)
    requires Shape(ops) && Shape(ops + [op]) && op.Invalidate?
    requires VersionsBelow(ops, family) && "ver:" <= family
    requires VersionHeader(ops, VersionKey(op.key)) && Outlives(ops, op)
    ensures VersionsBelow(ops + [op], family)
  {
    hide EntryKey, Decimal, VersionKey, Number, LastInvalidation, NextVersion, CurrentVersion, VersionNumber;
    var ops' := ops + [op];
    assert ops'[..|ops|] == ops;
    VersionNumberGrows(ops, op, family);
    assert Origins(ops') == Origins(ops);
    forall key | key in Origins(ops) && VersionKey(ops'[Origins(ops)[key].index].key) == family
      ensures Origins(ops)[key].version <= VersionNumber(Run(ops'), family)
    {
      assert EntryCell(ops, Run(ops), key, Origins(ops)[key]);
    }
  }

  lemma VersionNumberGrows(ops: seq<Op>, op: Op, family: string)
    requires Shape(ops) && op.Invalidate? && "ver:" <= family
    requires VersionHeader(ops, VersionKey(op.key)) && Outlives(ops, op)
    ensures VersionNumber(Apply(Run(ops), op), family) >= VersionNumber(Run(ops), family)
  {
    hide Run, Origins, Decimal, VersionKey, LastInvalidation, NextVersion, VersionHeader, Outlives, EntryCell;
    if TakesEffect(op) && family == VersionKey(op.key) {
      assert VersionCell(Run(ops), family);
      CurrentIsStored(ops, op);
      CurrentVersionPrints(Run(ops), op.key, op.at);
      NumberOfDecimal(CurrentVersion(Run(ops), op.key, op.at) + 1);
    }
  }

  lemma VersionLineStep(ops: seq<Op>, op: Op, family: string)
    requires Shape(ops) && Shape(ops + [op]) && PlainKey(op.key) && "ver:" <= family
    requires VersionLine(ops, family) && VersionLine(ops, VersionKey(op.key)) && Outlives(ops, op)
    ensures VersionLine(ops + [op], family)
  {
    hide Shape, VersionHeader, VersionsBelow, Outlives, VersionKey;
    VersionHeaderStep(ops, op, family);
    if op.Lookup? { VersionsBelowAfterLookup(ops, op, family); } else { VersionsBelowAfterInvalidate(ops, op, family); }
  }

  lemma VersionNumberIsPositive(ops: seq<Op>, family: string)
    requires Shape(ops) && "ver:" <= family
    ensures VersionNumber(Run(ops), family) >= 1
  {
    hide Decimal;
    assert VersionCell(Run(ops), family);
    if family in Run(ops) {
      var n: nat :| n >= 2 && Run(ops)[family].value == Decimal(n);
      NumberOfDecimal(n);
    }
  }

  lemma {:induction false} VersionLineAlways(ops: seq<Op>, family: string)
    requires Sequential(ops) && VersionsOutlive(ops) && "ver:" <= family
    ensures Shape(ops) && VersionLine(ops, family)
  {
    hide VersionLine, Shape, Run, LastInvalidation, Outlives;
    ShapeAlways(ops);
    if ops == [] {
      EmptyVersionLine(family);
    } else {
      var front, op := ops[..|ops| - 1], ops[|ops| - 1];
      assert ops == front + [op];
      PrefixOutlives(ops, |front|);
      VersionLineAlways(front, family);
      VersionKeyIsVersionKey(op.key);
      VersionLineAlways(front, VersionKey(op.key));
      VersionLineStep(front, op, family);
    }
  }

  lemma EmptyVersionLine(family: string)
    ensures Shape([]) && VersionLine([], family)
  {
  }

  /** Reuse needs an expired version entry. */
  lemma OutlivingVersionsAreNotReused(ops: seq<Op>)
    requires Sequential(ops) && VersionsOutlive(ops)
    ensures NeverReuses(ops)
  {
    hide Shape, VersionLine, Run, Reuses, Outlives;
    forall i | 0 <= i < |ops| && TakesEffect(ops[i])
      ensures !Reuses(Run(ops[..i]), ops[i])
    {
      PrefixOutlives(ops, i);
      VersionKeyIsVersionKey(ops[i].key);
      VersionLineAlways(ops[..i], VersionKey(ops[i].key));
      NextVersionIsNew(ops[..i], ops[i]);
    }
  }

  lemma NextVersionIsNew(ops: seq<Op>, op: Op)
    requires Shape(ops) && TakesEffect(op) && VersionLine(ops, VersionKey(op.key)) && Outlives(ops, op)
    ensures !Reuses(Run(ops), op)
  {
    hide Run, Origins, Decimal, VersionKey, LastInvalidation, NextVersion, VersionLine, Outlives, LiveUnder, CurrentVersion, Shape;
    VersionKeyIsVersionKey(op.key);
    var next := CurrentVersion(Run(ops), op.key, op.at) + 1;
    NextVersionPrints(ops, op);
    forall q ensures !LiveUnder(Run(ops), op, q, Decimal(next), op.at) {
      NotLiveUnderNext(ops, op, q);
    }
  }

  lemma NextVersionPrints(ops: seq<Op>, op: Op)
    requires Shape(ops)
    ensures
      NextVersion(Get(Run(ops), VersionKey(op.key), Start(op))) ==
      Decimal(CurrentVersion(Run(ops), op.key, Start(op)) + 1)
  {
    hide Run, Origins, Decimal, VersionKey, NextVersion, CurrentVersion, EntryCell;
    VersionKeyIsVersionKey(op.key);
    assert VersionCell(Run(ops), VersionKey(op.key));
    CurrentVersionPrints(Run(ops), op.key, Start(op));
  }

  lemma NotLiveUnderNext(ops: seq<Op>, op: Op, q: string)
    requires Shape(ops) && TakesEffect(op) && VersionLine(ops, VersionKey(op.key)) && Outlives(ops, op)
    ensures !LiveUnder(Run(ops), op, q, Decimal(CurrentVersion(Run(ops), op.key, op.at) + 1), op.at)
  {
    hide Run, Origins, Decimal, VersionKey, LastInvalidation, Outlives, EntryKey, VersionHeader, PlainKey;
    var kv, next := Run(ops), CurrentVersion(Run(ops), op.key, op.at) + 1;
    if LiveUnder(kv, op, q, Decimal(next), op.at) {
      var key := EntryKey(q, Decimal(next));
      PlainEntry(q, Decimal(next));
      assert key in kv;
      var o := Origins(ops)[key];
      assert EntryCell(ops, kv, key, o);
      EntryKeyInjective(q, Decimal(next), ops[o.index].key, Decimal(o.version));
      DecimalInjective(next, o.version);
      VersionKeyIsVersionKey(op.key);
      assert VersionCell(kv, VersionKey(op.key));
      CurrentIsStored(ops, op);
    }
  }

  /** The cache never returns a value older than the last invalidation as long as no
      version entry expires between two invalidations of one family. */
  lemma FreshWhileVersionsOutlive(ops: seq<Op>, i: nat)
    requires Sequential(ops) && VersionsOutlive(ops)
    requires i < |ops| && ops[i].Lookup?
    ensures exists j :: FetchedBy(ops, i, j)
  {
    hide Sequential, VersionsOutlive, NeverReuses, FetchedBy;
    OutlivingVersionsAreNotReused(ops);
    CachedValuesAreFresh(ops, i);
  }

  /** Without that condition the guarantee fails, for every key: the version entry of an
      invalidation at 0 expires at 3600; the value stored at 3595 under version 2 is served
      at 3602, although the key was invalidated, back to version 2, at 3601. */
  lemma ExpiredVersionServesStaleValue(key: string)
    requires PlainKey(key)
    ensures
      var ops := [
        Invalidate(key, 0, false),
        Lookup(key, 3595, 3595, 60, "\"old\"", false, false),
        Invalidate(key, 3601, false),
        Lookup(key, 3602, 3602, 60, "\"new\"", false, false)];
      && Sequential(ops)
      && Returned(ops, 3) == "\"old\""
      && (forall j :: 0 <= j < 4 ==> !FetchedBy(ops, 3, j))
  {
    hide EntryKey, Decimal, VersionKey, Number, PlainKey;
    var ops := [
      Invalidate(key, 0, false),
      Lookup(key, 3595, 3595, 60, "\"old\"", false, false),
      Invalidate(key, 3601, false),
      Lookup(key, 3602, 3602, 60, "\"new\"", false, false)];
    var family := VersionKey(key);
    VersionKeyIsVersionKey(key);
    NumberOfDecimal(1);
    PlainEntry(key, Decimal(2));
    var v2 := NextVersion(None);
    assert v2 == Decimal(2) by { OneIsDecimal(); }
    var kv1: KV := map[family := Entry(v2, 3600)];
    var kv2 := kv1[EntryKey(key, v2) := Entry("\"old\"", 3655)];
    var kv3 := kv2[family := Entry(v2, 7201)];
    RunStep(ops, 0);
    RunStep(ops, 1);
    RunStep(ops, 2);
    assert ops[..0] == [];
    assert Run(ops[..1]) == kv1;
    assert Run(ops[..2]) == kv2;
    assert Run(ops[..3]) == kv3;
  }

  lemma OneIsDecimal()
    ensures Decimal(1) == "1" && AllDigits("1") && Number("1") == 1
  {
    NumberOfDecimal(1);
  }

  lemma RunStep(ops: seq<Op>, i: nat)
    requires i < |ops|
    ensures Run(ops[..i + 1]) == Apply(Run(ops[..i]), ops[i])
  {
    assert ops[..i + 1][..i] == ops[..i];
  }
}
