/** The service token cache of apps/ai-agent/src/handlers.js:33-67: `getServiceJWT`, its
    `jwtCache`, and the tokens `generateServiceJWT` (413-476) mints for it. */
module JwtCache {
  import opened Common
  import opened Base64Url
  import opened JwtClaims

  const TTL := 55 * 60
  const REFRESH_BUFFER := 5 * 60

  /** What minting does if it is tried: `at` and `issuedAt` are the clock readings behind the
      `exp` and `iat` claims. */
  datatype Mint =
    | Minted(at: nat, issuedAt: nat, header: seq<Byte>, signature: seq<Byte>)
    | MintFails(error: string)

  /** One call: the project, the clock when it starts, and what minting would do. */
  datatype Call = Call(project: string, now: nat, mint: Mint)

  /** The JSON printer and parser: `render(tid, exp, iat)` are the bytes of a payload, and
      `expOf` is the `exp` a decoded payload text parses to, `None` when there is none or the
      parser throws. */
  datatype JsonCodec = JsonCodec(render: (string, int, int) -> seq<Byte>, expOf: string -> Option<int>)

  datatype CachedToken = CachedToken(jwt: string, expiresAt: int)

  type Cache = map<string, CachedToken>

  /** The token minted for a project. */
  function Token(codec: JsonCodec, project: string, mint: Mint): (jwt: string)
    requires mint.Minted?
  {
    Compact(mint.header, codec.render(project, mint.at + TTL, mint.issuedAt), mint.signature)
  }

  /** When the cache believes a fresh token to expire. */
  function ExpiresAt(codec: JsonCodec, jwt: string, now: nat): (t: int) {
    match DecodePayload(jwt)
    case None => now + TTL
    case Some(text) =>
      var exp := codec.expOf(text).GetOr(0);
      if exp != 0 then exp else now + TTL
  }

  predicate Usable(cache: Cache, c: Call) {
    c.project in cache && cache[c.project].expiresAt > c.now + REFRESH_BUFFER
  }

  /** One call: its answer and the cache it leaves. */
  function Step(codec: JsonCodec, cache: Cache, c: Call): (r: (Answer<string>, Cache)) {
    if Usable(cache, c) then (Answers(cache[c.project].jwt), cache)
    else if c.mint.MintFails? then (Throws(c.mint.error), cache)
    else
      var jwt := Token(codec, c.project, c.mint);
      (Answers(jwt), cache[c.project := CachedToken(jwt, ExpiresAt(codec, jwt, c.now))])
  }

  class TokenCache {
    var jwtCache: Cache

    constructor ()
      ensures jwtCache == map[]
    {
      jwtCache := map[];
    }

    method GetServiceJWT(codec: JsonCodec, c: Call) returns (r: Answer<string>)
      modifies this
      ensures (r, jwtCache) == Step(codec, old(jwtCache), c)
    {
      hide Token, DecodePayload;
      if c.project in jwtCache {
        var cached := jwtCache[c.project];
        if cached.expiresAt > c.now + REFRESH_BUFFER {
          return Answers(cached.jwt);
        }
      }
      if c.mint.MintFails? {
        return Throws(c.mint.error);
      }
      var newJWT := Token(codec, c.project, c.mint);
      var expiresAt := c.now + TTL;
      var text := DecodePayload(newJWT);
      if text.Some? {
        var exp := codec.expOf(text.value);
        if exp.Some? && exp.value != 0 {
          expiresAt := exp.value;
        }
      }
      jwtCache := jwtCache[c.project := CachedToken(newJWT, expiresAt)];
      r := Answers(newJWT);
    }
  }

  // ---- runs ----

  /** The cache after a run of calls, from an empty cache. */
  function After(codec: JsonCodec, calls: seq<Call>): (cache: Cache) {
    if calls == [] then map[]
    else Step(codec, After(codec, calls[..|calls| - 1]), calls[|calls| - 1]).1
  }

  /** The cache call number `i` finds. */
  function Before(codec: JsonCodec, calls: seq<Call>, i: nat): (cache: Cache)
    requires i <= |calls|
  {
    After(codec, calls[..i])
  }

  lemma BeforeNext(codec: JsonCodec, calls: seq<Call>, i: nat)
    requires i < |calls|
    ensures Before(codec, calls, i + 1) == Step(codec, Before(codec, calls, i), calls[i]).1
  {
    assert calls[..i + 1][..i] == calls[..i];
  }

  /** What call number `i` of the run answers. */
  function Answered(codec: JsonCodec, calls: seq<Call>, i: nat): (r: Answer<string>)
    requires i < |calls|
  {
    Step(codec, Before(codec, calls, i), calls[i]).0
  }

  /** Call number `i` tries to mint. */
  predicate Tries(codec: JsonCodec, calls: seq<Call>, i: nat)
    requires i < |calls|
  {
    !Usable(Before(codec, calls, i), calls[i])
  }

  /** Call number `i` mints a token. */
  predicate Mints(codec: JsonCodec, calls: seq<Call>, i: nat)
    requires i < |calls|
  {
    Tries(codec, calls, i) && calls[i].mint.Minted?
  }

  /** Minting takes time, if anything; the clock may go back between calls. */
  predicate Timed(calls: seq<Call>) {
    forall i :: 0 <= i < |calls| && calls[i].mint.Minted? ==> calls[i].now <= calls[i].mint.at
  }

  /** Parsing a rendered payload reads the expiry that was rendered, or, when `knows` is
      false, never reads any. */
  ghost predicate ReadsExp(codec: JsonCodec, knows: bool) {
    forall tid, exp, iat :: codec.expOf(Latin1(codec.render(tid, exp, iat))) == if knows then Some(exp) else None
  }

  /** The time from which a token is good for 3300 seconds, as far as the cache can tell: that
      of its signature, or else that of the call that had it minted. */
  function Stamp(knows: bool, c: Call): (t: int)
    requires c.mint.Minted?
  {
    if knows then c.mint.at else c.now
  }

  /** The token is of the three segments, with the claims of the project in the middle. */
  predicate IsTokenOf(codec: JsonCodec, jwt: string, project: string, mint: Mint)
    requires mint.Minted?
  {
    jwt == Encode(mint.header) + "." + Encode(codec.render(project, mint.at + 3300, mint.issuedAt)) + "."
      + Encode(mint.signature)
  }

  /** The bytes survive the compact form, so the cache knows the very expiry that was signed,
      if the parser reads it, and else goes by the time of the call. */
  lemma KnowsSignedExpiry(codec: JsonCodec, knows: bool, c: Call)
    requires ReadsExp(codec, knows) && c.mint.Minted?
    ensures
      var jwt := Token(codec, c.project, c.mint);
      IsTokenOf(codec, jwt, c.project, c.mint) && ExpiresAt(codec, jwt, c.now) == Stamp(knows, c) + 3300
  {
    hide DecodePayload, Encode;
    ReadsClaimOfPayload(c.mint.header, codec.render(c.project, c.mint.at + 3300, c.mint.issuedAt), c.mint.signature,
      "", (s: string) => None);
  }

  /** `entry` is the token call `k` minted for `p`, with its expiry. */
  predicate IsSource(codec: JsonCodec, knows: bool, calls: seq<Call>, k: nat, p: string, entry: CachedToken)
    requires k < |calls|
  {
    && Mints(codec, calls, k) && calls[k].project == p
    && IsTokenOf(codec, entry.jwt, p, calls[k].mint) && entry.expiresAt == Stamp(knows, calls[k]) + 3300
  }

  /** Before call `n`, every entry comes from an earlier mint, and no earlier mint for the
      project expires later. */
  ghost predicate Holds(codec: JsonCodec, knows: bool, calls: seq<Call>, n: nat)
    requires n <= |calls|
  {
    var cache := Before(codec, calls, n);
    && (forall p :: p in cache ==> exists k :: 0 <= k < n && IsSource(codec, knows, calls, k, p, cache[p]))
    && (forall k :: 0 <= k < n && Mints(codec, calls, k) ==> Covers(knows, cache, calls[k]))
  }

  predicate Covers(knows: bool, cache: Cache, c: Call)
    requires c.mint.Minted?
  {
    c.project in cache && cache[c.project].expiresAt >= Stamp(knows, c) + 3300
  }

  lemma {:induction false} CacheHolds(codec: JsonCodec, knows: bool, calls: seq<Call>, n: nat)
    requires n <= |calls| && ReadsExp(codec, knows) && Timed(calls)
    ensures Holds(codec, knows, calls, n)
  {
    if n == 0 {
      assert Before(codec, calls, 0) == map[];
    } else {
      hide *;
      CacheHolds(codec, knows, calls, n - 1);
      HoldsNext(codec, knows, calls, n - 1);
    }
  }

  lemma HoldsNext(codec: JsonCodec, knows: bool, calls: seq<Call>, n: nat)
    requires n < |calls| && ReadsExp(codec, knows) && Timed(calls) && Holds(codec, knows, calls, n)
    ensures Holds(codec, knows, calls, n + 1)
  {
    hide Before, Token, ExpiresAt, ReadsExp, IsTokenOf;
    var cache, next, c := Before(codec, calls, n), Before(codec, calls, n + 1), calls[n];
    BeforeNext(codec, calls, n);
    if Mints(codec, calls, n) {
      KnowsSignedExpiry(codec, knows, c);
      var entry := next[c.project];
      assert IsSource(codec, knows, calls, n, c.project, entry);
      forall p | p in next ensures exists k :: 0 <= k < n + 1 && IsSource(codec, knows, calls, k, p, next[p]) {
        if p != c.project { assert p in cache && next[p] == cache[p]; }
      }
    } else {
      assert next == cache;
    }
  }

  // ---- what every run keeps ----

  /** Call `i` returns the token call `k` minted for the same project, signed as that
      project's, and still good for more than five minutes. */
  predicate ServedBy(codec: JsonCodec, calls: seq<Call>, k: nat, i: nat)
    requires k <= i < |calls|
  {
    && Mints(codec, calls, k) && calls[k].project == calls[i].project
    && Answered(codec, calls, i).Answers?
    && IsTokenOf(codec, Answered(codec, calls, i).value, calls[i].project, calls[k].mint)
    && calls[k].mint.at + 3300 > calls[i].now + 300
  }

  /** Every token returned was minted for the project asked for, by this call or an earlier
      one, and its signed expiry is more than five minutes after the call, whatever the clock
      did in between, and whether or not the parser can read the expiry. */
  lemma ReturnedTokensAreGood(codec: JsonCodec, knows: bool, calls: seq<Call>, i: nat)
    requires i < |calls| && ReadsExp(codec, knows) && Timed(calls)
    requires Answered(codec, calls, i).Answers?
    ensures exists k :: 0 <= k <= i && ServedBy(codec, calls, k, i)
  {
    hide Before, Token, ExpiresAt, ReadsExp, IsTokenOf;
    CacheHolds(codec, knows, calls, i);
    if Tries(codec, calls, i) {
      KnowsSignedExpiry(codec, knows, calls[i]);
      assert ServedBy(codec, calls, i, i);
    } else {
      var entry := Before(codec, calls, i)[calls[i].project];
      var k :| 0 <= k < i && IsSource(codec, knows, calls, k, calls[i].project, entry);
      assert ServedBy(codec, calls, k, i);
    }
  }

  /** The value is an object whose member `claim` is the string `text`. */
  predicate Says(json: Option<Json>, claim: string, text: string) {
    json.Some? && json.value.JsonObject? && claim in json.value.fields && json.value.fields[claim] == JsonString(text)
  }

  /** Parsing a rendered payload gives an object that says the project that was rendered. */
  ghost predicate ReadsTid(codec: JsonCodec, parse: string -> Option<Json>) {
    forall tid, exp, iat :: Says(parse(Latin1(codec.render(tid, exp, iat))), "tid", tid)
  }

  /** The dashboard's reader finds the project asked for in every token returned, fresh or
      cached. */
  lemma ReturnedTokensNameTheProject(codec: JsonCodec, knows: bool, parse: string -> Option<Json>, calls: seq<Call>, i: nat)
    requires i < |calls| && ReadsExp(codec, knows) && ReadsTid(codec, parse) && Timed(calls)
    requires Answered(codec, calls, i).Answers?
    ensures ReadClaim(Answered(codec, calls, i).value, "tid", parse) == Some(calls[i].project)
  {
    hide Before, Token, ExpiresAt, ReadsExp, Encode, ReadClaim, Answered;
    ReturnedTokensAreGood(codec, knows, calls, i);
    var k :| 0 <= k <= i && ServedBy(codec, calls, k, i);
    var mint := calls[k].mint;
    var payload := codec.render(calls[i].project, mint.at + 3300, mint.issuedAt);
    assert Says(parse(Latin1(payload)), "tid", calls[i].project);
    ReadsClaimOfPayload(mint.header, payload, mint.signature, "tid", parse);
  }

  /** A call fails exactly when it has to mint and cannot, and then the cache is as it was. */
  lemma FailsIffMintFails(codec: JsonCodec, calls: seq<Call>, i: nat)
    requires i < |calls|
    ensures Answered(codec, calls, i).Throws? <==> Tries(codec, calls, i) && calls[i].mint.MintFails?
    ensures Answered(codec, calls, i).Throws? ==> Before(codec, calls, i + 1) == Before(codec, calls, i)
  {
    hide Before, Token, ExpiresAt;
    BeforeNext(codec, calls, i);
  }

  /** A call tries to mint exactly when every token minted for its project so far is 3000
      seconds old or older: no token is thrown away early, none is kept too long, and calls
      for other projects make no difference. */
  lemma TriesIffAllMintsAreOld(codec: JsonCodec, knows: bool, calls: seq<Call>, i: nat)
    requires i < |calls| && ReadsExp(codec, knows) && Timed(calls)
    ensures Tries(codec, calls, i) <==>
      forall k :: 0 <= k < i && Mints(codec, calls, k) && calls[k].project == calls[i].project ==>
        calls[i].now >= Stamp(knows, calls[k]) + 3000
  {
    hide Before, Token, ExpiresAt, ReadsExp, IsTokenOf;
    CacheHolds(codec, knows, calls, i);
    var cache, c := Before(codec, calls, i), calls[i];
    if !Tries(codec, calls, i) {
      var k :| 0 <= k < i && IsSource(codec, knows, calls, k, c.project, cache[c.project]);
      assert Mints(codec, calls, k) && c.now < Stamp(knows, calls[k]) + 3000;
    }
  }

  /** Two mints for one project are at least 3000 seconds apart. */
  lemma MintsAreApart(codec: JsonCodec, knows: bool, calls: seq<Call>, k: nat, i: nat)
    requires k < i < |calls| && ReadsExp(codec, knows) && Timed(calls)
    requires Mints(codec, calls, k) && Mints(codec, calls, i) && calls[k].project == calls[i].project
    ensures Stamp(knows, calls[i]) >= Stamp(knows, calls[k]) + 3000
  {
    hide Before;
    TriesIffAllMintsAreOld(codec, knows, calls, i);
  }

  /** Call `i` mints a token for `p` inside the stretch of `length` seconds from `start`. */
  predicate MintsIn(codec: JsonCodec, knows: bool, calls: seq<Call>, p: string, start: int, length: nat, i: nat)
    requires i < |calls|
  {
    Mints(codec, calls, i) && calls[i].project == p && start <= Stamp(knows, calls[i]) <= start + length
  }

  /** How many of the first `n` calls do. */
  function MintCount(codec: JsonCodec, knows: bool, calls: seq<Call>, p: string, start: int, length: nat, n: nat): (count: nat)
    requires n <= |calls|
  {
    if n == 0 then 0
    else MintCount(codec, knows, calls, p, start, length, n - 1) + if MintsIn(codec, knows, calls, p, start, length, n - 1) then 1 else 0
  }

  /** However many calls there are, and whatever happens outside it, a stretch of `length`
      seconds sees at most `length / 3000 + 1` mints for a project. */
  lemma MintsAreFew(codec: JsonCodec, knows: bool, calls: seq<Call>, p: string, start: int, length: nat)
    requires ReadsExp(codec, knows) && Timed(calls)
    ensures MintCount(codec, knows, calls, p, start, length, |calls|) <= length / 3000 + 1
  {
    hide Timed, ReadsExp, Mints;
    if MintCount(codec, knows, calls, p, start, length, |calls|) > 0 {
      var last := MintsSpread(codec, knows, calls, p, start, length, |calls|);
    }
  }

  lemma {:induction false} MintsSpread(codec: JsonCodec, knows: bool, calls: seq<Call>, p: string, start: int, length: nat, n: nat)
    returns (last: nat)
    requires n <= |calls| && ReadsExp(codec, knows) && Timed(calls) && MintCount(codec, knows, calls, p, start, length, n) > 0
    ensures last < n && MintsIn(codec, knows, calls, p, start, length, last)
    ensures Stamp(knows, calls[last]) >= start + 3000 * (MintCount(codec, knows, calls, p, start, length, n) - 1)
  {
    hide Before, Timed, ReadsExp, Tries;
    last := n - 1;
    if MintCount(codec, knows, calls, p, start, length, n - 1) > 0 {
      var earlier := MintsSpread(codec, knows, calls, p, start, length, n - 1);
      if MintsIn(codec, knows, calls, p, start, length, n - 1) {
        MintsAreApart(codec, knows, calls, earlier, n - 1);
      } else {
        last := earlier;
      }
    }
  }
}
