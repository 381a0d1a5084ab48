/** `escapeLike` (apps/worker/src/worker.js:725-727) against the meaning of SQL's
    LIKE ... ESCAPE '\'. */
module LikePattern {

  const ESCAPE := '\\'

  predicate IsSpecial(c: char) {
    c == '%' || c == '_' || c == ESCAPE
  }

  /** `input.replace(/([%_\\])/g, "\\$1")`. */
  function EscapeLike(input: string): (r: string) {
    if input == "" then ""
    else (if IsSpecial(input[0]) then [ESCAPE, input[0]] else [input[0]]) + EscapeLike(input[1..])
  }

  /** `text LIKE pattern ESCAPE '\'` (section 8.5 of ISO/IEC 9075-2): '%' stands for any
      sequence, '_' for any one character, an escaped character for itself.  Characters are
      compared after `fold`: the identity for a case-sensitive LIKE, lower-casing of ASCII
      letters for SQLite's default.  A dangling escape matches nothing. */
  ghost predicate Matches(fold: char -> char, pattern: string, text: string)
    decreases |pattern|
  {
    if pattern == "" then text == ""
    else if pattern[0] == '%' then exists k :: 0 <= k <= |text| && Matches(fold, pattern[1..], text[k..])
    else if pattern[0] == '_' then text != "" && Matches(fold, pattern[1..], text[1..])
    else if pattern[0] == ESCAPE then
      |pattern| >= 2 && text != "" && fold(text[0]) == fold(pattern[1]) && Matches(fold, pattern[2..], text[1..])
    else text != "" && fold(text[0]) == fold(pattern[0]) && Matches(fold, pattern[1..], text[1..])
  }

  /** The standard makes an escape an error unless it precedes one of the special characters. */
  predicate WellEscaped(pattern: string) {
    if pattern == "" then true
    else if pattern[0] == ESCAPE then |pattern| >= 2 && IsSpecial(pattern[1]) && WellEscaped(pattern[2..])
    else WellEscaped(pattern[1..])
  }

  /** The two texts are equal character by character, up to `fold`. */
  ghost predicate SameText(fold: char -> char, s: string, t: string) {
    |s| == |t| && forall i :: 0 <= i < |s| ==> fold(s[i]) == fold(t[i])
  }

  lemma SameTextStep(fold: char -> char, s: string, t: string)
    requires s != ""
    ensures SameText(fold, s, t) <==> t != "" && fold(t[0]) == fold(s[0]) && SameText(fold, s[1..], t[1..])
  {
    if t != "" && fold(t[0]) == fold(s[0]) && SameText(fold, s[1..], t[1..]) {
      forall i | 0 <= i < |s| ensures fold(s[i]) == fold(t[i]) {
        if i > 0 { assert s[i] == s[1..][i - 1] && t[i] == t[1..][i - 1]; }
      }
    }
  }

  lemma EscapeStep(s: string, rest: string)
    requires s != ""
    ensures
      var tail := EscapeLike(s[1..]) + rest;
      EscapeLike(s) + rest == if IsSpecial(s[0]) then [ESCAPE, s[0]] + tail else [s[0]] + tail
  {
  }

  lemma EscapedCharMatches(fold: char -> char, c: char, tail: string, t: string)
    ensures
      var pattern := (if IsSpecial(c) then [ESCAPE, c] else [c]) + tail;
      Matches(fold, pattern, t) <==> t != "" && fold(t[0]) == fold(c) && Matches(fold, tail, t[1..])
  {
    var pattern := (if IsSpecial(c) then [ESCAPE, c] else [c]) + tail;
    if IsSpecial(c) { assert pattern[2..] == tail; } else { assert pattern[1..] == tail; }
  }

  /** An escaped text in front of a pattern matches itself and leaves the rest to the rest. */
  lemma {:induction false} EscapedPrefix(fold: char -> char, s: string, rest: string, t: string)
    ensures
      Matches(fold, EscapeLike(s) + rest, t) <==>
      |s| <= |t| && SameText(fold, s, t[..|s|]) && Matches(fold, rest, t[|s|..])
    decreases |s|
  {
    if s == "" {
      assert EscapeLike(s) + rest == rest && t[0..] == t;
    } else {
      var tail := EscapeLike(s[1..]) + rest;
      EscapeStep(s, rest);
      EscapedCharMatches(fold, s[0], tail, t);
      if t != "" {
        EscapedPrefix(fold, s[1..], rest, t[1..]);
        if |s| <= |t| {
          SameTextStep(fold, s, t[..|s|]);
          assert t[..|s|][1..] == t[1..][..|s| - 1];
          assert t[1..][|s| - 1..] == t[|s|..];
        }
      }
    }
  }

  /** The escaped text matches exactly the texts equal to it, and is always well escaped. */
  lemma EscapedMatchesOnlyItself(fold: char -> char, s: string, t: string)
    ensures Matches(fold, EscapeLike(s), t) <==> SameText(fold, s, t)
    ensures WellEscaped(EscapeLike(s))
  {
    EscapedPrefix(fold, s, "", t);
    assert EscapeLike(s) + "" == EscapeLike(s);
    if |s| == |t| { assert t[..|s|] == t; }
    EscapeIsWellEscaped(s);
  }

  lemma {:induction false} EscapeIsWellEscaped(s: string)
    ensures WellEscaped(EscapeLike(s))
  {
    if s != "" {
      EscapeIsWellEscaped(s[1..]);
      var e := EscapeLike(s);
      if IsSpecial(s[0]) { assert e[2..] == EscapeLike(s[1..]); } else { assert e[1..] == EscapeLike(s[1..]); }
    }
  }

  /** `s` occurs in `t`, up to `fold`. */
  ghost predicate OccursAt(fold: char -> char, s: string, t: string, k: int) {
    0 <= k <= |t| - |s| && SameText(fold, s, t[k..k + |s|])
  }

  ghost predicate Occurs(fold: char -> char, s: string, t: string) {
    exists k :: OccursAt(fold, s, t, k)
  }

  lemma AnySuffixMatches(fold: char -> char, t: string)
    ensures Matches(fold, "%", t)
  {
    assert "%"[1..] == "" && t[|t|..] == "";
    assert Matches(fold, "%"[1..], t[|t|..]);
  }

  /** Where the rest of the search pattern matches is where `s` occurs. */
  lemma SearchAt(fold: char -> char, s: string, t: string, k: nat)
    requires k <= |t|
    ensures Matches(fold, EscapeLike(s) + "%", t[k..]) <==> OccursAt(fold, s, t, k)
  {
    hide Matches, SameText;
    EscapedPrefix(fold, s, "%", t[k..]);
    if |s| <= |t| - k {
      assert t[k..][..|s|] == t[k..k + |s|];
      AnySuffixMatches(fold, t[k..][|s|..]);
    }
  }

  /** The search pattern '%' + escapeLike(s) + '%' matches exactly the texts in which `s`
      occurs, whatever `s` is. */
  lemma SearchFindsExactlySubstrings(fold: char -> char, s: string, t: string)
    ensures Matches(fold, "%" + EscapeLike(s) + "%", t) <==> Occurs(fold, s, t)
  {
    hide EscapeLike, OccursAt;
    var pattern := "%" + EscapeLike(s) + "%";
    assert pattern[0] == '%' && pattern[1..] == EscapeLike(s) + "%";
    forall k | 0 <= k <= |t|
      ensures Matches(fold, pattern[1..], t[k..]) <==> OccursAt(fold, s, t, k)
    {
      SearchAt(fold, s, t, k);
    }
    OccurrencesAreInside(fold, s, t);
  }

  lemma OccurrencesAreInside(fold: char -> char, s: string, t: string)
    ensures forall k :: OccursAt(fold, s, t, k) ==> 0 <= k <= |t|
  {
  }

  /** Case-sensitively: the escaped text matches `t` exactly when `t == s`, and the search
      pattern exactly when `s` is a substring of `t`. */
  lemma CaseSensitiveSearch(s: string, t: string)
    ensures Matches((c: char) => c, EscapeLike(s), t) <==> t == s
    ensures Matches((c: char) => c, "%" + EscapeLike(s) + "%", t) <==> exists a, b :: t == a + s + b
  {
    var id := (c: char) => c;
    EscapedMatchesOnlyItself(id, s, t);
    SearchFindsExactlySubstrings(id, s, t);
    if Occurs(id, s, t) {
      var k :| OccursAt(id, s, t, k);
      assert t[k..k + |s|] == s;
      assert t == t[..k] + s + t[k + |s|..];
    }
    if a, b :| t == a + s + b {
      assert t[|a|..|a| + |s|] == s;
      assert OccursAt(id, s, t, |a|);
    }
  }

  // ---- when the escaping matters ----

  predicate HasSpecial(s: string) {
    exists i :: 0 <= i < |s| && IsSpecial(s[i])
  }

  lemma {:induction false} NothingToEscape(s: string)
    requires !HasSpecial(s)
    ensures EscapeLike(s) == s
  {
    if s != "" {
      assert forall i :: 0 <= i < |s| - 1 ==> s[1..][i] == s[i + 1];
      NothingToEscape(s[1..]);
      assert s == [s[0]] + s[1..];
    }
  }

  /** A shortest text that the unescaped term, followed by '%', matches: nothing for '%', `x`
      for '_', the next character for a backslash; a last backslash escapes the '%' after it. */
  function Instance(s: string, x: char): (t: string) {
    if s == "" then ""
    else if s[0] == '%' then Instance(s[1..], x)
    else if s[0] == '_' then [x] + Instance(s[1..], x)
    else if s[0] != ESCAPE then [s[0]] + Instance(s[1..], x)
    else if |s| == 1 then "%"
    else [s[1]] + Instance(s[2..], x)
  }

  lemma {:induction false} InstanceMatches(fold: char -> char, s: string, x: char)
    ensures Matches(fold, s + "%", Instance(s, x))
    decreases |s|
  {
    var pattern, t := s + "%", Instance(s, x);
    if s == "" {
      AnySuffixMatches(fold, "");
      assert pattern == "%";
    } else if s[0] == ESCAPE {
      if |s| == 1 {
        assert pattern[2..] == "" && t[1..] == "";
      } else {
        InstanceMatches(fold, s[2..], x);
        assert pattern[2..] == s[2..] + "%" && t[1..] == Instance(s[2..], x);
      }
    } else {
      InstanceMatches(fold, s[1..], x);
      assert pattern[1..] == s[1..] + "%";
      assert s[0] == '%' ==> t[0..] == t;
      assert s[0] != '%' ==> t[1..] == Instance(s[1..], x);
    }
  }

  /** The instance is no longer than the term, and is the term only if that has no special
      character. */
  lemma {:induction false} InstanceDiffers(fold: char -> char, s: string, x: char)
    requires fold(x) != fold('_') && fold('%') != fold(ESCAPE)
    ensures |Instance(s, x)| <= |s|
    ensures SameText(fold, s, Instance(s, x)) ==> !HasSpecial(s)
    decreases |s|
  {
    if s != "" {
      hide Matches, SameText;
      var t := Instance(s, x);
      SameTextStep(fold, s, t);
      SameTextLength(fold, s, t);
      if s[0] == ESCAPE {
        if |s| > 1 { InstanceDiffers(fold, s[2..], x); }
      } else {
        InstanceDiffers(fold, s[1..], x);
        if !IsSpecial(s[0]) {
          assert t[1..] == Instance(s[1..], x);
          assert s == [s[0]] + s[1..];
        }
      }
    }
  }

  lemma SameTextLength(fold: char -> char, s: string, t: string)
    ensures SameText(fold, s, t) ==> |s| == |t|
  {
  }

  /** Used unescaped, a term finds exactly the texts it occurs in if and only if it has none
      of '%', '_' and backslash.  The comparison must tell '_' from some character and '%'
      from the backslash, as both usual ones do. */
  lemma UnescapedSearchWorksIff(fold: char -> char, s: string, x: char)
    requires fold(x) != fold('_') && fold('%') != fold(ESCAPE)
    ensures (forall t :: Matches(fold, "%" + s + "%", t) <==> Occurs(fold, s, t)) <==> !HasSpecial(s)
  {
    hide Matches, HasSpecial;
    if HasSpecial(s) {
      var t := Instance(s, x);
      InstanceMatches(fold, s, x);
      InstanceDiffers(fold, s, x);
      AnyPrefixMatches(fold, s + "%", t);
      assert "%" + s + "%" == "%" + (s + "%");
      OccursInNoLonger(fold, s, t);
    } else {
      NothingToEscape(s);
      forall t ensures Matches(fold, "%" + s + "%", t) <==> Occurs(fold, s, t) {
        SearchFindsExactlySubstrings(fold, s, t);
      }
    }
  }

  lemma OccursInNoLonger(fold: char -> char, s: string, t: string)
    requires |t| <= |s|
    ensures Occurs(fold, s, t) ==> SameText(fold, s, t)
  {
    if Occurs(fold, s, t) {
      var k :| OccursAt(fold, s, t, k);
      assert t[k..k + |s|] == t;
    }
  }

  lemma AnyPrefixMatches(fold: char -> char, rest: string, t: string)
    requires Matches(fold, rest, t)
    ensures Matches(fold, "%" + rest, t)
  {
    assert ("%" + rest)[1..] == rest && t[0..] == t;
  }
}
