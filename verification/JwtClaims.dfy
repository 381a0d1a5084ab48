/** Compact tokens: `generateServiceJWT` (apps/ai-agent/src/handlers.js:413-476) joins three
    segments; `readJwtSub` and `readJwtTenantId` (apps/dashboard/lib/jwt-claims.ts) and
    `getServiceJWT` (apps/ai-agent/src/handlers.js:58-62) read the middle one back. */
module JwtClaims {
  import opened Common
  import opened Base64Url

  // ---- splitting ----

  /** `s.split(c)`. */
  function Split(s: string, c: char): (r: seq<string>)
    ensures r != []
  {
    if s == "" then [""]
    else
      var rest := Split(s[1..], c);
      if s[0] == c then [""] + rest else [[s[0]] + rest[0]] + rest[1..]
  }

  lemma {:induction false} SplitSegment(a: string, c: char)
    requires forall i :: 0 <= i < |a| ==> a[i] != c
    ensures Split(a, c) == [a]
  {
    if a != "" {
      SplitSegment(a[1..], c);
      assert a == [a[0]] + a[1..];
    }
  }

  lemma {:induction false} SplitFirst(a: string, c: char, rest: string)
    requires forall i :: 0 <= i < |a| ==> a[i] != c
    ensures Split(a + [c] + rest, c) == [a] + Split(rest, c)
  {
    var s := a + [c] + rest;
    if a == "" {
      assert s[1..] == rest;
    } else {
      SplitFirst(a[1..], c, rest);
      assert s[1..] == a[1..] + [c] + rest;
      assert a == [a[0]] + a[1..];
    }
  }

  // ---- the compact form (section 7.1 of RFC 7515) ----

  function Compact(header: seq<Byte>, payload: seq<Byte>, signature: seq<Byte>): (token: string) {
    Encode(header) + "." + Encode(payload) + "." + Encode(signature)
  }

  lemma EncodeHasNoDot(bytes: seq<Byte>)
    ensures forall i :: 0 <= i < |Encode(bytes)| ==> Encode(bytes)[i] != '.' && !IsSpace(Encode(bytes)[i])
  {
    hide Encode;
    EncodeIsUnpaddedUrlSafe(bytes);
  }

  /** Splitting a token at the dots returns exactly its three segments. */
  lemma CompactSplits(header: seq<Byte>, payload: seq<Byte>, signature: seq<Byte>)
    ensures Split(Compact(header, payload, signature), '.') == [Encode(header), Encode(payload), Encode(signature)]
  {
    hide Encode, Split;
    EncodeHasNoDot(header);
    EncodeHasNoDot(payload);
    EncodeHasNoDot(signature);
    var tail := Encode(payload) + "." + Encode(signature);
    assert Compact(header, payload, signature) == Encode(header) + "." + tail;
    SplitFirst(Encode(header), '.', tail);
    SplitFirst(Encode(payload), '.', Encode(signature));
    SplitSegment(Encode(signature), '.');
  }

  // ---- reading a claim ----

  /** White space that `trim` removes. */
  predicate IsSpace(c: char) {
    || c == ' ' || 9 <= c as int <= 13 || c as int in {0xA0, 0x1680, 0x2028, 0x2029, 0x202F, 0x205F, 0x3000, 0xFEFF}
    || 0x2000 <= c as int <= 0x200A
  }

  function TrimStart(s: string): (r: string) {
    if s != "" && IsSpace(s[0]) then TrimStart(s[1..]) else s
  }

  function TrimEnd(s: string): (r: string) {
    if s != "" && IsSpace(s[|s| - 1]) then TrimEnd(s[..|s| - 1]) else s
  }

  function Trim(s: string): (r: string) {
    TrimEnd(TrimStart(s))
  }

  /** A parsed JSON value, as far as the readers look into it. */
  datatype Json = JsonString(text: string) | JsonObject(fields: map<string, Json>) | JsonOther

  /** `typeof json.claim === "string" ? json.claim : null`; reading from `null` throws, which
      gives `null` too. */
  function ClaimOf(json: Option<Json>, claim: string): (r: Option<string>) {
    match json
    case Some(JsonObject(fields)) =>
      if claim in fields && fields[claim].JsonString? then Some(fields[claim].text) else None
    case _ => None
  }

  /** `readJwtSub` for the claim "sub", `readJwtTenantId` for the claim "tid"; `parse` is
      `JSON.parse`, with `None` for a thrown error. */
  function ReadClaim(token: string, claim: string, parse: string -> Option<Json>): (r: Option<string>) {
    var trimmed := Trim(token);
    if trimmed == "" then None
    else
      var parts := Split(trimmed, '.');
      if |parts| < 2 then None
      else match Atob(Pad(Unmap(parts[1])))
        case None => None
        case Some(text) => ClaimOf(parse(text), claim)
  }

  /** What `getServiceJWT` decodes to find the expiry: the same without the padding. */
  function DecodePayload(token: string): (r: Option<string>) {
    var parts := Split(token, '.');
    if |parts| < 2 then None else Atob(Unmap(parts[1]))
  }

  lemma NothingToTrim(s: string)
    requires s != "" && !IsSpace(s[0]) && !IsSpace(s[|s| - 1])
    ensures Trim(s) == s
  {
  }

  lemma CompactNeedsNoTrim(header: seq<Byte>, payload: seq<Byte>, signature: seq<Byte>)
    ensures
      var token := Compact(header, payload, signature);
      token != "" && Trim(token) == token
  {
    hide Encode, Trim, IsSpace;
    EncodeHasNoDot(header);
    EncodeHasNoDot(payload);
    EncodeHasNoDot(signature);
    var token := Compact(header, payload, signature);
    assert !IsSpace('.') by { DotIsNoSpace(); }
    assert token[0] == if Encode(header) == "" then '.' else Encode(header)[0];
    var last := Encode(signature);
    assert token[|token| - 1] == if last == "" then '.' else last[|last| - 1];
    NothingToTrim(token);
  }

  lemma DotIsNoSpace()
    ensures !IsSpace('.')
  {
  }

  /** Reading a claim of any printed token gives the claim of its payload, byte for byte. */
  lemma ReadsClaimOfPayload(
    header: seq<Byte>, payload: seq<Byte>, signature: seq<Byte>, claim: string, parse: string -> Option<Json>)
    ensures ReadClaim(Compact(header, payload, signature), claim, parse) == ClaimOf(parse(Latin1(payload)), claim)
    ensures DecodePayload(Compact(header, payload, signature)) == Some(Latin1(payload))
  {
    hide Compact, Encode, Trim, Split, Atob, Unmap, Pad, ClaimOf;
    CompactNeedsNoTrim(header, payload, signature);
    CompactSplits(header, payload, signature);
    DecodeInvertsEncode(payload);
  }

  /** A claim is read from a printed token exactly when its payload parses to an object with
      that member, and the member is a string: that string. */
  lemma ReadsExactlyStringMembers(
    header: seq<Byte>, payload: seq<Byte>, signature: seq<Byte>, claim: string, parse: string -> Option<Json>, text: string)
    ensures ReadClaim(Compact(header, payload, signature), claim, parse) == Some(text) <==>
      exists fields: map<string, Json> ::
        parse(Latin1(payload)) == Some(JsonObject(fields)) && claim in fields && fields[claim] == JsonString(text)
  {
    hide Compact, ReadClaim;
    ReadsClaimOfPayload(header, payload, signature, claim, parse);
  }

  lemma {:induction false} NoDotNoSplit(s: string)
    requires '.' !in s
    ensures Split(s, '.') == [s]
  {
    SplitSegment(s, '.');
  }

  lemma {:induction false} TrimIsPart(s: string, c: char)
    requires c !in s
    ensures c !in Trim(s)
  {
    TrimStartIsPart(s, c);
    TrimEndIsPart(TrimStart(s), c);
  }

  lemma {:induction false} TrimStartIsPart(s: string, c: char)
    requires c !in s
    ensures c !in TrimStart(s)
  {
    if s != "" { TrimStartIsPart(s[1..], c); }
  }

  lemma {:induction false} TrimEndIsPart(s: string, c: char)
    requires c !in s
    ensures c !in TrimEnd(s)
  {
    if s != "" { TrimEndIsPart(s[..|s| - 1], c); }
  }

  /** A text without a dot is no token. */
  lemma NoDotNoClaim(token: string, claim: string, parse: string -> Option<Json>)
    requires '.' !in token
    ensures ReadClaim(token, claim, parse) == None
  {
    hide Trim, Split, Atob, Unmap, Pad;
    TrimIsPart(token, '.');
    NoDotNoSplit(Trim(token));
  }

  lemma {:induction false} TrimStartSkips(front: string, s: string)
    requires forall i :: 0 <= i < |front| ==> IsSpace(front[i])
    ensures TrimStart(front + s) == TrimStart(s)
  {
    if front == "" {
      assert front + s == s;
    } else {
      TrimStartSkips(front[1..], s);
      assert (front + s)[1..] == front[1..] + s;
    }
  }

  lemma {:induction false} TrimEndSkips(s: string, back: string)
    requires forall i :: 0 <= i < |back| ==> IsSpace(back[i])
    ensures TrimEnd(s + back) == TrimEnd(s)
    decreases |back|
  {
    if back == "" {
      assert s + back == s;
    } else {
      TrimEndSkips(s, back[..|back| - 1]);
      assert (s + back)[..|s + back| - 1] == s + back[..|back| - 1];
    }
  }

  /** White space around a token makes no difference. */
  lemma SpaceAroundIsIgnored(
    front: string, header: seq<Byte>, payload: seq<Byte>, signature: seq<Byte>, back: string, claim: string,
    parse: string -> Option<Json>)
    requires forall i :: 0 <= i < |front| ==> front[i] == ' ' || front[i] == '\t' || front[i] == '\n' || front[i] == '\r'
    requires forall i :: 0 <= i < |back| ==> back[i] == ' ' || back[i] == '\t' || back[i] == '\n' || back[i] == '\r'
    ensures
      var token := Compact(header, payload, signature);
      ReadClaim(front + token + back, claim, parse) == ReadClaim(token, claim, parse)
  {
    hide Compact, Split, Atob, Unmap, Pad, TrimStart, TrimEnd, Encode;
    var token := Compact(header, payload, signature);
    CompactNeedsNoTrim(header, payload, signature);
    TrimStartSkips(front, token + back);
    assert front + token + back == front + (token + back);
    assert TrimStart(token + back) == token + back by { StartsPlainly(header, payload, signature, back); }
    assert TrimStart(token) == token by {
      StartsPlainly(header, payload, signature, "");
      assert token + "" == token;
    }
    TrimEndSkips(token, back);
  }

  lemma StartsPlainly(header: seq<Byte>, payload: seq<Byte>, signature: seq<Byte>, back: string)
    ensures
      var text := Compact(header, payload, signature) + back;
      TrimStart(text) == text
  {
    hide Encode, IsSpace;
    EncodeHasNoDot(header);
    DotIsNoSpace();
    var text := Compact(header, payload, signature) + back;
    assert text[0] == if Encode(header) == "" then '.' else Encode(header)[0];
  }

  // ---- text payloads ----

  /** `new TextEncoder().encode(text)`. */
  function Utf8(text: string): (bytes: seq<Byte>) {
    if text == "" then [] else Utf8Char(text[0] as int) + Utf8(text[1..])
  }

  function Utf8Char(c: int): (bytes: seq<Byte>)
    requires 0 <= c < 0x110000
    ensures |bytes| == if c < 0x80 then 1 else if c < 0x800 then 2 else if c < 0x10000 then 3 else 4
    ensures c < 0x80 ==> bytes == [c]
  {
    if c < 0x80 then [c]
    else if c < 0x800 then [0xC0 + c / 64, 0x80 + c % 64]
    else if c < 0x10000 then [0xE0 + c / 4096, 0x80 + c / 64 % 64, 0x80 + c % 64]
    else [0xF0 + c / 262144, 0x80 + c / 4096 % 64, 0x80 + c / 64 % 64, 0x80 + c % 64]
  }

  predicate IsAscii(text: string) {
    forall i :: 0 <= i < |text| ==> text[i] as int < 0x80
  }

  lemma {:induction false} Utf8Length(text: string)
    ensures |Utf8(text)| >= |text|
    ensures |Utf8(text)| == |text| <==> IsAscii(text)
  {
    if text != "" {
      Utf8Length(text[1..]);
      assert IsAscii(text) <==> text[0] as int < 0x80 && IsAscii(text[1..]) by {
        assert forall i :: 0 < i < |text| ==> text[i] == text[1..][i - 1];
      }
    }
  }

  lemma {:induction false} AsciiReadsBack(text: string)
    requires IsAscii(text)
    ensures Latin1(Utf8(text)) == text
  {
    if text != "" {
      assert IsAscii(text[1..]);
      AsciiReadsBack(text[1..]);
      assert Utf8(text) == [text[0] as int] + Utf8(text[1..]);
      assert text == [text[0]] + text[1..];
      assert Latin1(Utf8(text)) == [text[0]] + Latin1(Utf8(text[1..]));
    }
  }

  /** The reader hands `JSON.parse` the very text that was signed exactly when that text is
      ASCII: the writer encodes UTF-8, the reader takes each byte for a character. */
  lemma ReaderSeesSignedTextIffAscii(header: seq<Byte>, text: string, signature: seq<Byte>)
    ensures DecodePayload(Compact(header, Utf8(text), signature)) == Some(text) <==> IsAscii(text)
  {
    hide Compact, DecodePayload, Utf8;
    ReadsClaimOfPayload(header, Utf8(text), signature, "", (s: string) => None);
    Utf8Length(text);
    if IsAscii(text) { AsciiReadsBack(text); }
  }
}
