/** `sanitizeMapPopupText` (apps/dashboard/lib/sanitize-map-popup-text.ts:2-11). */
module PopupText {
  import opened Common
  import opened Tags

  predicate IsControl(c: char) {
    c as int <= 0x1F || c as int == 0x7F
  }

  /** `replace(/[\u0000-\u001F\u007F]/g, "")`. */
  function StripControls(s: string): (r: string) {
    if s == "" then "" else (if IsControl(s[0]) then "" else [s[0]]) + StripControls(s[1..])
  }

  /** `slice(0, n)`. */
  function Take(s: string, n: nat): (r: string)
    ensures r <= s && |r| == if |s| <= n then |s| else n
  {
    if |s| <= n then s else s[..n]
  }

  /** The text shown: control characters go, one pass drops the tags, 200 characters stay. */
  function Shown(s: string): (r: string) {
    Take(RemoveTags(StripControls(s)), 200)
  }

  /** The loop to a fixpoint; `passes` counts how often its body runs. */
  method SanitizeMapPopupText(value: Option<string>) returns (r: string, ghost passes: nat)
    ensures r == match value case None => "" case Some(s) => Shown(s)
    ensures passes <= 2
  {
    passes := 0;
    if value.None? || value.value == "" {
      return "", 0;
    }
    var start := StripControls(value.value);
    OnePassLeavesNoTag(start);
    var out, prev := start, "";
    while out != prev
      invariant passes == 0 ==> out == start && prev == ""
      invariant passes == 1 ==> out == RemoveTags(start) && prev == start
      invariant passes == 2 ==> out == RemoveTags(start) && prev == out
      invariant passes <= 2
      decreases if out == prev then 0 else |out| + 1
    {
      UntouchedIffNoTag(out);
      RemoveTagsShortens(out);
      prev := out;
      out := RemoveTags(out);
      passes := passes + 1;
    }
    r := Take(out, 200);
  }

  lemma {:induction false} RemoveTagsShortens(s: string)
    ensures |RemoveTags(s)| <= |s| && (|RemoveTags(s)| == |s| ==> RemoveTags(s) == s)
    decreases |s|
  {
    if s != "" {
      hide Find;
      var close := Find(s, '>');
      if s[0] == '<' && close < |s| {
        RemoveTagsShortens(s[close + 1..]);
      } else {
        RemoveTagsShortens(s[1..]);
        assert s == [s[0]] + s[1..];
      }
    }
  }

  predicate NoControls(s: string) {
    forall i :: 0 <= i < |s| ==> !IsControl(s[i])
  }

  lemma {:induction false} StripControlsMeans(s: string)
    ensures NoControls(StripControls(s)) && IsSubsequence(StripControls(s), s)
    ensures StripControls(s) == s <==> NoControls(s)
    ensures |StripControls(s)| <= |s|
  {
    if s != "" {
      StripControlsMeans(s[1..]);
      var rest := StripControls(s[1..]);
      if IsControl(s[0]) {
        assert StripControls(s) == rest;
      } else {
        assert StripControls(s)[1..] == rest;
        assert s == [s[0]] + s[1..];
        assert NoControls(s) <==> NoControls(s[1..]);
      }
    }
  }

  lemma {:induction false} NoControlsInPart(a: string, b: string)
    requires IsSubsequence(a, b) && NoControls(b)
    ensures NoControls(a)
  {
    forall i | 0 <= i < |a| ensures !IsControl(a[i]) {
      SubsequenceMember(a, b, a[i]);
    }
  }

  /** What may be shown. */
  predicate Showable(s: string) {
    NoControls(s) && NoTagLeft(s) && |s| <= 200
  }

  /** The text shown is always showable, and is had from the value by leaving characters out. */
  lemma ShownIsShowable(s: string)
    ensures Showable(Shown(s)) && IsSubsequence(Shown(s), s)
  {
    var plain := StripControls(s);
    var untagged := RemoveTags(plain);
    var shown := Shown(s);
    hide RemoveTags, StripControls, IsSubsequence;
    StripControlsMeans(s);
    RemoveTagsIsSubsequence(plain);
    OnePassLeavesNoTag(plain);
    PrefixIsSubsequence(untagged, |shown|);
    assert shown == untagged[..|shown|];
    NoControlsInPart(untagged, plain);
    SubsequenceTransitive(shown, untagged, plain);
    SubsequenceTransitive(shown, plain, s);
  }

  /** A value is shown unchanged exactly when it is showable. */
  lemma ShownUnchangedIffShowable(s: string)
    ensures Shown(s) == s <==> Showable(s)
  {
    hide RemoveTags, StripControls;
    ShownIsShowable(s);
    if Showable(s) {
      StripControlsMeans(s);
      UntouchedIffNoTag(s);
    }
  }

  /** Sanitizing again changes nothing. */
  lemma ShownTwice(s: string)
    ensures Shown(Shown(s)) == Shown(s)
  {
    hide Shown, Showable;
    ShownIsShowable(s);
    ShownUnchangedIffShowable(Shown(s));
  }

  lemma {:induction false} StripControlsAppends(a: string, b: string)
    ensures StripControls(a + b) == StripControls(a) + StripControls(b)
  {
    if a == "" {
      assert a + b == b;
    } else {
      StripControlsAppends(a[1..], b);
      StripControlsFirst(a[0], a[1..]);
      StripControlsFirst(a[0], a[1..] + b);
      hide StripControls;
      assert a == [a[0]] + a[1..] && a + b == [a[0]] + (a[1..] + b);
    }
  }

  lemma StripControlsFirst(c: char, s: string)
    ensures StripControls([c] + s) == (if c as int < 32 || c as int == 127 then "" else [c]) + StripControls(s)
  {
    var whole := [c] + s;
    assert whole[0] == c && whole[1..] == s;
  }

  /** Wherever it stands, a character below U+0020 or U+007F goes and any other stays. */
  lemma ControlsGoOthersStay(a: string, c: char, b: string)
    ensures StripControls(a + [c] + b) ==
      StripControls(a) + (if c as int < 32 || c as int == 127 then "" else [c]) + StripControls(b)
    ensures StripControls("") == ""
  {
    assert StripControls("") == "";
    StripControlsFirst(c, "");
    hide StripControls;
    StripControlsAppends(a + [c], b);
    StripControlsAppends(a, [c]);
    assert [c] + "" == [c];
  }

  /** The text shown is the first 200 characters of what is outside the tags. */
  lemma ShownIsFrontOfUntagged(s: string)
    ensures
      var kept := OutsideTags(StripControls(s), 0);
      Shown(s) <= kept && |Shown(s)| == if |kept| <= 200 then |kept| else 200
  {
    hide RemoveTags, OutsideTags, StripControls;
    RemoveTagsKeepsOutside(StripControls(s));
  }
}
