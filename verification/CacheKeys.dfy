/** The key-value keys of the worker's cache (apps/worker/src/worker.js:181-222): version
    keys, entry keys, and why they never collide. */
module CacheKeys {
  import opened Common

  predicate IsDigit(c: char) {
    '0' <= c <= '9'
  }

  predicate AllDigits(s: string) {
    forall i :: 0 <= i < |s| ==> IsDigit(s[i])
  }

  function Digit(d: nat): (c: char)
    requires d < 10
    ensures IsDigit(c)
  {
    ('0' as int + d) as char
  }

  /** `String(n)`. */
  function Decimal(n: nat): (s: string)
    ensures s != "" && AllDigits(s)
  {
    if n < 10 then [Digit(n)] else Decimal(n / 10) + [Digit(n % 10)]
  }

  /** `Number(s)` of a string of digits. */
  function Number(s: string): (n: nat)
    requires AllDigits(s)
  {
    if s == "" then 0 else 10 * Number(s[..|s| - 1]) + (s[|s| - 1] as int - '0' as int)
  }

  lemma {:induction false} NumberOfDecimal(n: nat)
    ensures Number(Decimal(n)) == n
  {
    var s := Decimal(n);
    assert Digit(n % 10) as int - '0' as int == n % 10;
    if n >= 10 {
      NumberOfDecimal(n / 10);
      assert s[..|s| - 1] == Decimal(n / 10);
    } else {
      assert s[..0] == "";
    }
  }

  /** The part of `s` before its first `c`, or all of `s`. */
  function Before(s: string, c: char): (r: string)
    ensures r <= s && c !in r
    ensures |r| < |s| ==> s[|r|] == c
  {
    if s == "" || s[0] == c then "" else [s[0]] + Before(s[1..], c)
  }

  const ROOMS := "rooms:"

  /** The group captured by /^rooms:([^:]+)(?::|$)/. */
  function RoomsProject(cacheKey: string): (r: Option<string>) {
    if ROOMS <= cacheKey && Before(cacheKey[|ROOMS|..], ':') != "" then Some(Before(cacheKey[|ROOMS|..], ':'))
    else None
  }

  /** `resolveCacheVersionKey`. */
  function VersionKey(cacheKey: string): (r: string) {
    match RoomsProject(cacheKey)
    case Some(p) => "ver:rooms:" + p
    case None => "ver:" + cacheKey
  }

  lemma {:induction false} BeforeOfCharFree(s: string, c: char)
    requires c !in s
    ensures Before(s, c) == s
  {
    if s != "" {
      assert s == [s[0]] + s[1..];
      BeforeOfCharFree(s[1..], c);
    }
  }

  lemma RoomsKeyOfProject(p: string)
    requires p != "" && ':' !in p
    ensures RoomsProject(ROOMS + p) == Some(p)
  {
    BeforeOfCharFree(p, ':');
    assert (ROOMS + p)[|ROOMS|..] == p;
  }

  /** `k` is a room-list key of project `p`: "rooms:" and the project, and then nothing more or
      a colon and whatever else. */
  predicate IsRoomsKeyOf(k: string, p: string) {
    p != "" && ':' !in p && (k == "rooms:" + p || "rooms:" + p + ":" <= k)
  }

  lemma RoomsProjectIff(k: string, p: string)
    ensures RoomsProject(k) == Some(p) <==> IsRoomsKeyOf(k, p)
  {
    if RoomsProject(k) == Some(p) {
      var rest := k[6..];
      assert k == "rooms:" + rest && Before(rest, ':') == p;
      if |p| < |rest| { assert rest[..|p| + 1] == p + ":"; }
    }
    if IsRoomsKeyOf(k, p) {
      var rest := k[6..];
      assert p <= rest && (|p| < |rest| ==> rest[|p|] == ':');
      BeforeStops(rest, ':', p);
    }
  }

  lemma {:induction false} BeforeStops(s: string, c: char, front: string)
    requires front <= s && c !in front && (|front| < |s| ==> s[|front|] == c)
    ensures Before(s, c) == front
  {
    if front != "" {
      BeforeStops(s[1..], c, front[1..]);
      assert front == [front[0]] + front[1..];
    }
  }

  /** The version of a room list is kept per project, of any other key on its own. */
  lemma VersionKeyMeans(k: string)
    ensures forall p :: IsRoomsKeyOf(k, p) ==> VersionKey(k) == "ver:rooms:" + p
    ensures (forall p :: !IsRoomsKeyOf(k, p)) ==> VersionKey(k) == "ver:" + k
  {
    hide IsRoomsKeyOf, RoomsProject;
    forall p ensures RoomsProject(k) == Some(p) <==> IsRoomsKeyOf(k, p) { RoomsProjectIff(k, p); }
    if RoomsProject(k).Some? { assert IsRoomsKeyOf(k, RoomsProject(k).value); }
  }

  /** Two keys share a version exactly when they are equal or are room lists of one project. */
  lemma SameFamilyIff(a: string, b: string)
    ensures VersionKey(a) == VersionKey(b) <==> a == b || exists p :: IsRoomsKeyOf(a, p) && IsRoomsKeyOf(b, p)
  {
    hide IsRoomsKeyOf, RoomsProject, VersionKey;
    SameVersionIff(a, b);
    forall p ensures RoomsProject(a) == Some(p) <==> IsRoomsKeyOf(a, p) { RoomsProjectIff(a, p); }
    forall p ensures RoomsProject(b) == Some(p) <==> IsRoomsKeyOf(b, p) { RoomsProjectIff(b, p); }
    if RoomsProject(a).Some? && RoomsProject(a) == RoomsProject(b) {
      assert IsRoomsKeyOf(a, RoomsProject(a).value) && IsRoomsKeyOf(b, RoomsProject(a).value);
    }
  }

  lemma SameVersionIff(a: string, b: string)
    ensures VersionKey(a) == VersionKey(b) <==> a == b || (RoomsProject(a).Some? && RoomsProject(a) == RoomsProject(b))
  {
    VersionKeyTail(a);
    VersionKeyTail(b);
    if VersionKey(a) == VersionKey(b) {
      var pa, pb := RoomsProject(a), RoomsProject(b);
      if pa.Some? && pb.Some? {
        assert VersionKey(a)[10..] == pa.value && VersionKey(b)[10..] == pb.value;
      } else if pa.Some? {
        assert b == ROOMS + pa.value;
        RoomsKeyOfProject(pa.value);
      } else if pb.Some? {
        assert a == ROOMS + pb.value;
        RoomsKeyOfProject(pb.value);
      }
    }
  }

  /** A version key is "ver:" and then the key itself, or "rooms:" and the project. */
  lemma VersionKeyTail(k: string)
    ensures |VersionKey(k)| >= 4 && VersionKey(k)[..4] == "ver:"
    ensures VersionKey(k)[4..] == match RoomsProject(k) case Some(p) => ROOMS + p case None => k
  {
  }

  /** The key an entry is stored under. */
  function EntryKey(cacheKey: string, version: string): (r: string) {
    cacheKey + ":v" + version
  }

  /** The caller's keys neither look like version keys nor like entry keys ("ver" is out
      because its entries, "ver:v2", would). */
  ghost predicate PlainKey(k: string) {
    && !("ver:" <= k) && k != "ver"
    && forall q, v :: k == EntryKey(q, v) ==> v == "" || !AllDigits(v)
  }

  lemma EntryKeyInjective(k: string, v: string, k': string, v': string)
    requires AllDigits(v) && AllDigits(v')
    requires EntryKey(k, v) == EntryKey(k', v')
    ensures k == k' && v == v'
  {
    var s := EntryKey(k, v);
    assert s[|k| + 1] == 'v' && s[|k'| + 1] == 'v';
    assert forall i :: |k| + 2 <= i < |s| ==> s[i] == v[i - |k| - 2];
    assert forall i :: |k'| + 2 <= i < |s| ==> s[i] == v'[i - |k'| - 2];
    if |k| == |k'| {
      assert s[..|k|] == k && s[..|k'|] == k';
      assert s[|k| + 2..] == v && s[|k'| + 2..] == v';
    }
  }

  /** An entry of a plain key is no version key. */
  lemma EntryIsNoVersionKey(k: string, v: string)
    requires !("ver:" <= k) && k != "ver"
    ensures !("ver:" <= EntryKey(k, v))
  {
    var s := EntryKey(k, v);
    assert s[|k|] == ':' && s[..|k|] == k;
    if |k| >= 4 { assert s[..4] == k[..4]; }
    if |k| == 3 { assert "ver:"[..3] == "ver" && s[..3] == k; }
  }
}
