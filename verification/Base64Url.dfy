/** The two halves of the token codec: `base64url` (apps/ai-agent/src/handlers.js:478-492)
    prints unpadded base64url; apps/dashboard/lib/jwt-claims.ts:10-12 and
    apps/ai-agent/src/handlers.js:59-60 undo it with and without restoring the padding. */
module Base64Url {
  import opened Common

  type Byte = b: int | 0 <= b < 256

  /** A binary string: one character per byte. */
  function Latin1(bytes: seq<Byte>): (s: string)
    ensures |s| == |bytes| && forall i :: 0 <= i < |s| ==> s[i] as int == bytes[i]
  {
    seq(|bytes|, i requires 0 <= i < |bytes| => bytes[i] as char)
  }

  // ---- the alphabet (section 4 of RFC 4648) ----

  type Sextet = n: int | 0 <= n < 64

  function Letter(n: Sextet): (c: char) {
    if n < 26 then ('A' as int + n) as char
    else if n < 52 then ('a' as int + (n - 26)) as char
    else if n < 62 then ('0' as int + (n - 52)) as char
    else if n == 62 then '+'
    else '/'
  }

  function SextetOf(c: char): (r: Option<Sextet>) {
    if 'A' <= c <= 'Z' then Some(c as int - 'A' as int)
    else if 'a' <= c <= 'z' then Some(c as int - 'a' as int + 26)
    else if '0' <= c <= '9' then Some(c as int - '0' as int + 52)
    else if c == '+' then Some(62)
    else if c == '/' then Some(63)
    else None
  }

  lemma LetterRoundTrip(n: Sextet)
    ensures SextetOf(Letter(n)) == Some(n)
  {
  }

  // ---- printing ----

  /** The sextets of a byte sequence, without padding. */
  function Sextets(bytes: seq<Byte>): (r: seq<Sextet>) {
    if bytes == [] then []
    else if |bytes| == 1 then [bytes[0] / 4, bytes[0] % 4 * 16]
    else if |bytes| == 2 then [bytes[0] / 4, bytes[0] % 4 * 16 + bytes[1] / 16, bytes[1] % 16 * 4]
    else
      [bytes[0] / 4, bytes[0] % 4 * 16 + bytes[1] / 16, bytes[1] % 16 * 4 + bytes[2] / 64, bytes[2] % 64]
      + Sextets(bytes[3..])
  }

  function Letters(sextets: seq<Sextet>): (s: string)
    ensures |s| == |sextets| && forall i :: 0 <= i < |s| ==> s[i] == Letter(sextets[i])
  {
    seq(|sextets|, i requires 0 <= i < |sextets| => Letter(sextets[i]))
  }

  function Padding(n: nat): (s: string)
    ensures |s| == (4 - n % 4) % 4 && forall i :: 0 <= i < |s| ==> s[i] == '='
  {
    seq((4 - n % 4) % 4, i => '=')
  }

  /** `padEnd` to a multiple of four. */
  function Pad(s: string): (r: string) {
    s + Padding(|s|)
  }

  /** `btoa` of a binary string (section 4 of RFC 4648). */
  function Btoa(bytes: seq<Byte>): (s: string) {
    Pad(Letters(Sextets(bytes)))
  }

  function ReplaceAll(s: string, from: char, to: char): (r: string)
    ensures |r| == |s| && forall i :: 0 <= i < |s| ==> r[i] == if s[i] == from then to else s[i]
  {
    seq(|s|, i requires 0 <= i < |s| => if s[i] == from then to else s[i])
  }

  /** `base64url`. */
  function Encode(bytes: seq<Byte>): (r: string) {
    RemoveAll(ReplaceAll(ReplaceAll(Btoa(bytes), '+', '-'), '/', '_'), '=')
  }

  /** The loop that builds the binary string, then the pure string calls. */
  method PrintBase64Url(input: seq<Byte>) returns (r: string)
    ensures r == Encode(input)
  {
    var binary: string := "";
    var i := 0;
    while i < |input|
      invariant 0 <= i <= |input|
      invariant binary == Latin1(input[..i])
    {
      binary := binary + [input[i] as char];
      i := i + 1;
    }
    assert input[..i] == input;
    var bin := Btoa(CharCodes(binary));
    assert CharCodes(Latin1(input)) == input;
    r := RemoveAll(ReplaceAll(ReplaceAll(bin, '+', '-'), '/', '_'), '=');
  }

  /** The bytes `btoa` reads from a binary string. */
  function CharCodes(binary: string): (r: seq<Byte>)
    requires forall i :: 0 <= i < |binary| ==> binary[i] as int < 256
  {
    seq(|binary|, i requires 0 <= i < |binary| => binary[i] as int)
  }

  // ---- reading ----

  /** `replace(/-/g, "+").replace(/_/g, "/")`. */
  function Unmap(s: string): (r: string) {
    ReplaceAll(ReplaceAll(s, '-', '+'), '_', '/')
  }

  predicate IsAsciiSpace(c: char) {
    c == ' ' || c == '\t' || c == '\n' || c == '\r' || c as int == 12
  }

  function WithoutSpace(s: string): (r: string) {
    if s == "" then "" else (if IsAsciiSpace(s[0]) then "" else [s[0]]) + WithoutSpace(s[1..])
  }

  /** Up to two '=' dropped from the end of a text whose length is a multiple of four. */
  function WithoutPadding(s: string): (r: string) {
    var n := |s|;
    if n % 4 != 0 || n == 0 || s[n - 1] != '=' then s
    else if s[n - 2] == '=' then s[..n - 2]
    else s[..n - 1]
  }

  predicate InAlphabet(s: string) {
    forall i :: 0 <= i < |s| ==> SextetOf(s[i]).Some?
  }

  function ValuesOf(s: string): (r: seq<Sextet>)
    requires InAlphabet(s)
    ensures |r| == |s|
  {
    seq(|s|, i requires 0 <= i < |s| => SextetOf(s[i]).value)
  }

  function FirstByte(a: int, b: int): (r: Byte)
    requires 0 <= a < 64 && 0 <= b < 64
  {
    a * 4 + b / 16
  }

  function SecondByte(b: int, c: int): (r: Byte)
    requires 0 <= b < 64 && 0 <= c < 64
  {
    b % 16 * 16 + c / 4
  }

  function ThirdByte(c: int, d: int): (r: Byte)
    requires 0 <= c < 64 && 0 <= d < 64
  {
    c % 4 * 64 + d
  }

  /** The bytes of a run of sextets; left-over bits are dropped. */
  function BytesOf(v: seq<Sextet>): (r: seq<Byte>) {
    if |v| < 2 then []
    else if |v| == 2 then [FirstByte(v[0], v[1])]
    else if |v| == 3 then [FirstByte(v[0], v[1]), SecondByte(v[1], v[2])]
    else [FirstByte(v[0], v[1]), SecondByte(v[1], v[2]), ThirdByte(v[2], v[3])] + BytesOf(v[4..])
  }

  /** `atob`: the forgiving base64 decoding of the web platform; `None` is a thrown error. */
  function Atob(s: string): (r: Option<string>) {
    var t := WithoutPadding(WithoutSpace(s));
    if |t| % 4 == 1 || !InAlphabet(t) then None else Some(Latin1(BytesOf(ValuesOf(t))))
  }

  // ---- printing, then reading ----

  lemma {:induction false} SextetCount(bytes: seq<Byte>)
    ensures |Sextets(bytes)| == (4 * |bytes| + 2) / 3
    ensures |Sextets(bytes)| % 4 != 1
  {
    if |bytes| >= 3 { SextetCount(bytes[3..]); }
  }

  /** The url-safe letter of a sextet (section 5 of RFC 4648). */
  function UrlLetter(n: Sextet): (c: char) {
    if n == 62 then '-' else if n == 63 then '_' else Letter(n)
  }

  function UrlLetters(sextets: seq<Sextet>): (s: string)
    ensures |s| == |sextets| && forall i :: 0 <= i < |s| ==> s[i] == UrlLetter(sextets[i])
  {
    seq(|sextets|, i requires 0 <= i < |sextets| => UrlLetter(sextets[i]))
  }

  /** The three replacements leave exactly the url-safe letters. */
  lemma EncodePrintsUrlLetters(bytes: seq<Byte>)
    ensures Encode(bytes) == UrlLetters(Sextets(bytes))
  {
    hide Sextets;
    var sextets := Sextets(bytes);
    var url := UrlLetters(sextets);
    var padding := Padding(|sextets|);
    var mapped := ReplaceAll(ReplaceAll(Btoa(bytes), '+', '-'), '/', '_');
    forall i | 0 <= i < |mapped| ensures mapped[i] == (url + padding)[i] {}
    assert mapped == url + padding;
    RemoveAllAppends(url, padding, '=');
    RemoveAllNone(url, '=');
    RemoveAllOnly(padding, '=');
  }

  lemma UnmapUrlLetters(sextets: seq<Sextet>)
    ensures Unmap(UrlLetters(sextets)) == Letters(sextets)
  {
  }

  lemma {:induction false} BytesOfSextets(bytes: seq<Byte>)
    ensures BytesOf(Sextets(bytes)) == bytes
  {
    if |bytes| >= 3 {
      BytesOfSextets(bytes[3..]);
      assert Sextets(bytes)[4..] == Sextets(bytes[3..]);
      assert bytes == [bytes[0], bytes[1], bytes[2]] + bytes[3..];
    }
  }

  lemma ValuesOfLetters(sextets: seq<Sextet>)
    ensures InAlphabet(Letters(sextets)) && ValuesOf(Letters(sextets)) == sextets
  {
    hide SextetOf, Letter;
    forall i | 0 <= i < |sextets| ensures SextetOf(Letters(sextets)[i]) == Some(sextets[i]) {
      LetterRoundTrip(sextets[i]);
    }
  }

  lemma {:induction false} NoSpaceToDrop(s: string)
    requires forall i :: 0 <= i < |s| ==> !IsAsciiSpace(s[i])
    ensures WithoutSpace(s) == s
  {
    if s != "" { NoSpaceToDrop(s[1..]); }
  }

  lemma LettersArePlain(sextets: seq<Sextet>)
    ensures forall i :: 0 <= i < |sextets| ==> Letters(sextets)[i] != '=' && !IsAsciiSpace(Letters(sextets)[i])
  {
  }

  /** For every byte sequence, undoing the url-safe letters and decoding gives the bytes
      back, whether the padding is restored first or not. */
  lemma DecodeInvertsEncode(bytes: seq<Byte>)
    ensures Atob(Pad(Unmap(Encode(bytes)))) == Some(Latin1(bytes))
    ensures Atob(Unmap(Encode(bytes))) == Some(Latin1(bytes))
  {
    hide *;
    EncodePrintsUrlLetters(bytes);
    UnmapUrlLetters(Sextets(bytes));
    SextetCount(bytes);
    BytesOfSextets(bytes);
    AtobOfLetters(Sextets(bytes));
  }

  lemma AtobOfLetters(sextets: seq<Sextet>)
    requires |sextets| % 4 != 1
    ensures Atob(Letters(sextets)) == Some(Latin1(BytesOf(sextets)))
    ensures Atob(Pad(Letters(sextets))) == Some(Latin1(BytesOf(sextets)))
  {
    hide BytesOf, Letter, SextetOf, WithoutSpace, InAlphabet, ValuesOf;
    var core := Letters(sextets);
    LettersArePlain(sextets);
    ValuesOfLetters(sextets);
    NoSpaceToDrop(core);
    NoSpaceToDrop(Pad(core));
    PaddingComesOff(core);
  }

  lemma PaddingComesOff(s: string)
    requires |s| % 4 != 1 && forall i :: 0 <= i < |s| ==> s[i] != '='
    ensures WithoutPadding(s) == s && WithoutPadding(Pad(s)) == s
  {
    var t := Pad(s);
    assert |t| % 4 == 0;
    if |s| % 4 == 0 { assert t == s; }
  }

  predicate IsUrlSafe(c: char) {
    'A' <= c <= 'Z' || 'a' <= c <= 'z' || '0' <= c <= '9' || c == '-' || c == '_'
  }

  /** What is printed uses the url-safe alphabet only, has no padding, and never a length
      that is 1 modulo 4, the one length a decoder must refuse. */
  lemma EncodeIsUnpaddedUrlSafe(bytes: seq<Byte>)
    ensures forall i :: 0 <= i < |Encode(bytes)| ==> IsUrlSafe(Encode(bytes)[i])
    ensures |Encode(bytes)| == (4 * |bytes| + 2) / 3 && |Encode(bytes)| % 4 != 1
  {
    hide Sextets, Encode;
    EncodePrintsUrlLetters(bytes);
    SextetCount(bytes);
  }

  /** Different byte sequences are printed differently. */
  lemma EncodeInjective(a: seq<Byte>, b: seq<Byte>)
    requires Encode(a) == Encode(b)
    ensures a == b
  {
    hide Encode, Atob;
    DecodeInvertsEncode(a);
    DecodeInvertsEncode(b);
    assert a == CharCodes(Latin1(a)) == CharCodes(Latin1(b)) == b;
  }

  // ---- against the standard itself ----

  /** Table 2 of section 5 of RFC 4648: A to Z, a to z, 0 to 9, '-' and '_'. */
  lemma LettersAreTheAlphabet(n: Sextet)
    ensures
      var c := UrlLetter(n) as int;
      && (n <= 25 ==> c == 65 + n)
      && (26 <= n <= 51 ==> c == 97 + (n - 26))
      && (52 <= n <= 61 ==> c == 48 + (n - 52))
      && (n == 62 ==> UrlLetter(n) == '-') && (n == 63 ==> UrlLetter(n) == '_')
  {
  }

  /** Digits read as a number to the given base, the first one most significant. */
  function ToNumber(digits: seq<int>, base: int): (n: int) {
    if digits == [] then 0 else ToNumber(digits[..|digits| - 1], base) * base + digits[|digits| - 1]
  }

  lemma ShortNumbers(base: int, a: int, b: int, c: int, d: int)
    ensures ToNumber([a], base) == a && ToNumber([a, b], base) == a * base + b
    ensures ToNumber([a, b, c], base) == (a * base + b) * base + c
    ensures ToNumber([a, b, c, d], base) == ((a * base + b) * base + c) * base + d
  {
    assert [a][..0] == [] && [a, b][..1] == [a] && [a, b, c][..2] == [a, b] && [a, b, c, d][..3] == [a, b, c];
  }

  /** Each group of three bytes, read as one number, is its four sextets read as one number;
      two bytes left over are padded with two zero bits, one with four. */
  lemma {:induction false} SextetsCarryTheBits(bytes: seq<Byte>, k: nat)
    requires 3 * k < |bytes|
    ensures
      var n, s := |bytes| - 3 * k, Sextets(bytes);
      && |s| == (4 * |bytes| + 2) / 3
      && (n >= 3 ==> ToNumber(bytes[3 * k..3 * k + 3], 256) == ToNumber(s[4 * k..4 * k + 4], 64))
      && (n == 2 ==> ToNumber(bytes[3 * k..], 256) * 4 == ToNumber(s[4 * k..], 64))
      && (n == 1 ==> ToNumber(bytes[3 * k..], 256) * 16 == ToNumber(s[4 * k..], 64))
  {
    SextetCount(bytes);
    hide ToNumber;
    if k > 0 {
      SextetsCarryTheBits(bytes[3..], k - 1);
      hide Sextets;
      SextetsOfGroup(bytes);
      var rest, s := bytes[3..], Sextets(bytes);
      assert rest[3 * (k - 1)..] == bytes[3 * k..] && s[4..][4 * (k - 1)..] == s[4 * k..];
      if |bytes| - 3 * k >= 3 {
        assert rest[3 * (k - 1)..3 * k] == bytes[3 * k..3 * k + 3] && s[4..][4 * (k - 1)..4 * k] == s[4 * k..4 * k + 4];
      }
    } else {
      FirstGroup(bytes);
    }
  }

  lemma FirstGroup(bytes: seq<Byte>)
    requires bytes != []
    ensures |bytes| >= 3 ==> |Sextets(bytes)| >= 4 && ToNumber(bytes[0..3], 256) == ToNumber(Sextets(bytes)[0..4], 64)
    ensures |bytes| == 2 ==> ToNumber(bytes[0..], 256) * 4 == ToNumber(Sextets(bytes)[0..], 64)
    ensures |bytes| == 1 ==> ToNumber(bytes[0..], 256) * 16 == ToNumber(Sextets(bytes)[0..], 64)
  {
    hide ToNumber;
    var s := Sextets(bytes);
    if |bytes| >= 3 {
      ShortNumbers(256, bytes[0], bytes[1], bytes[2], 0);
      ShortNumbers(64, s[0], s[1], s[2], s[3]);
      assert bytes[0..3] == [bytes[0], bytes[1], bytes[2]] && s[0..4] == [s[0], s[1], s[2], s[3]];
    } else if |bytes| == 2 {
      ShortNumbers(256, bytes[0], bytes[1], 0, 0);
      ShortNumbers(64, s[0], s[1], s[2], 0);
      assert bytes[0..] == [bytes[0], bytes[1]] && s[0..] == [s[0], s[1], s[2]];
    } else {
      ShortNumbers(256, bytes[0], 0, 0, 0);
      ShortNumbers(64, s[0], s[1], 0, 0);
      assert bytes[0..] == [bytes[0]] && s[0..] == [s[0], s[1]];
    }
  }

  lemma SextetsOfGroup(bytes: seq<Byte>)
    requires |bytes| >= 3
    ensures |Sextets(bytes)| >= 4 && Sextets(bytes)[4..] == Sextets(bytes[3..])
  {
  }
}
