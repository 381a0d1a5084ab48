/** Removing tags from text: the one pass of `replace(/<[^>]*>/g, "")`
    (apps/dashboard/lib/sanitize-map-popup-text.ts:8), which sanitize-html.ts:33-46 refines. */
module Tags {
  import opened Common

  /** Every leftmost '<' … '>' span is dropped; a '<' that no '>' follows stays. */
  function RemoveTags(s: string): (r: string)
    decreases |s|
  {
    if s == "" then ""
    else
      var close := Find(s, '>');
      if s[0] == '<' && close < |s| then RemoveTags(s[close + 1..])
      else [s[0]] + RemoveTags(s[1..])
  }

  /** No '<' is followed later by a '>'. */
  predicate NoTagLeft(s: string) {
    forall i, j :: 0 <= i < j < |s| && s[i] == '<' ==> s[j] != '>'
  }

  lemma {:induction false} RemoveTagsIsSubsequence(s: string)
    ensures IsSubsequence(RemoveTags(s), s)
    decreases |s|
  {
    if s != "" {
      var close := Find(s, '>');
      if s[0] == '<' && close < |s| {
        RemoveTagsIsSubsequence(s[close + 1..]);
        SuffixIsSubsequence(s, close + 1);
        SubsequenceTransitive(RemoveTags(s), s[close + 1..], s);
      } else {
        RemoveTagsIsSubsequence(s[1..]);
      }
    }
  }

  lemma {:induction false} SuffixIsSubsequence(s: string, n: nat)
    requires n <= |s|
    ensures IsSubsequence(s[n..], s)
    decreases |s|
  {
    if n == 0 {
      PrefixIsSubsequence(s, |s|);
      assert s[..|s|] == s == s[n..];
    } else {
      SuffixIsSubsequence(s[1..], n - 1);
      assert s[1..][n - 1..] == s[n..];
      if s[n..] != "" { assert IsSubsequence(s[n..], s[1..]); }
    }
  }

  /** One pass is enough: what it leaves has no '<' with a '>' after it. */
  lemma {:induction false} OnePassLeavesNoTag(s: string)
    ensures NoTagLeft(RemoveTags(s))
    decreases |s|
  {
    if s != "" {
      var close := Find(s, '>');
      if s[0] == '<' && close < |s| {
        OnePassLeavesNoTag(s[close + 1..]);
      } else {
        OnePassLeavesNoTag(s[1..]);
        RemoveTagsIsSubsequence(s[1..]);
        var rest := RemoveTags(s[1..]);
        if s[0] == '<' && '>' in rest {
          SubsequenceMember(rest, s[1..], '>');
          assert false;
        }
      }
    }
  }

  /** The pass changes a text exactly when the text has a tag. */
  lemma {:induction false} UntouchedIffNoTag(s: string)
    ensures RemoveTags(s) == s <==> NoTagLeft(s)
  {
    OnePassLeavesNoTag(s);
    if NoTagLeft(s) { NoTagNothingRemoved(s); }
  }

  lemma {:induction false} NoTagNothingRemoved(s: string)
    requires NoTagLeft(s)
    ensures RemoveTags(s) == s
  {
    if s != "" {
      assert s == [s[0]] + s[1..];
      NoTagNothingRemoved(s[1..]);
    }
  }

  // ---- which characters go ----

  /** A '<' stands at or before `i` with no '>' between. */
  predicate Opened(s: string, i: nat)
    requires i <= |s|
  {
    exists j :: 0 <= j < i && s[j] == '<' && '>' !in s[j..i]
  }

  predicate ClosesLater(s: string, i: nat)
    requires i <= |s|
  {
    '>' in s[i..]
  }

  /** Position `i` belongs to a tag: one is open there, or opens there, and is closed. */
  predicate InTag(s: string, i: nat)
    requires i < |s|
  {
    (Opened(s, i) || s[i] == '<') && ClosesLater(s, i)
  }

  /** The characters of `s` from `i` on that belong to no tag. */
  function OutsideTags(s: string, i: nat): (r: string)
    requires i <= |s|
    decreases |s| - i
  {
    if i == |s| then "" else (if InTag(s, i) then "" else [s[i]]) + OutsideTags(s, i + 1)
  }

  /** What the pass keeps is exactly the characters that belong to no tag. */
  lemma RemoveTagsKeepsOutside(s: string)
    ensures RemoveTags(s) == OutsideTags(s, 0)
  {
    assert s[0..] == s;
    KeepsOutsideFrom(s, 0);
  }

  lemma OpenedNext(s: string, i: nat)
    requires i < |s|
    ensures Opened(s, i + 1) <==> s[i] == '<' || (Opened(s, i) && s[i] != '>')
  {
    if s[i] == '<' {
      assert s[i..i + 1] == "<";
    }
    forall j | 0 <= j < i ensures '>' in s[j..i + 1] <==> '>' in s[j..i] || s[i] == '>' {
      assert s[j..i + 1] == s[j..i] + [s[i]];
    }
  }

  lemma ClosesNext(s: string, i: nat)
    requires i < |s|
    ensures ClosesLater(s, i) <==> s[i] == '>' || ClosesLater(s, i + 1)
  {
    assert s[i..] == [s[i]] + s[i + 1..];
  }

  lemma RemoveTagsUnfolds(s: string, i: nat)
    requires i < |s|
    ensures
      var close := FindFrom(s, '>', i);
      RemoveTags(s[i..]) ==
        if s[i] == '<' && close < |s| then RemoveTags(s[close + 1..]) else [s[i]] + RemoveTags(s[i + 1..])
  {
    hide Find;
    var t := s[i..];
    var at := Find(t, '>');
    assert t[1..] == s[i + 1..];
    assert at < |t| ==> t[at + 1..] == s[i + at + 1..];
  }

  /** A position that is not in the middle of a tag. */
  predicate Between(s: string, i: nat)
    requires i <= |s|
  {
    !Opened(s, i) || !ClosesLater(s, i)
  }

  lemma {:induction false} KeepsOutsideFrom(s: string, i: nat)
    requires i <= |s| && Between(s, i)
    ensures RemoveTags(s[i..]) == OutsideTags(s, i)
    decreases |s| - i
  {
    hide *;
    if i == |s| {
      NothingToKeep(s);
      return;
    }
    RemoveTagsUnfolds(s, i);
    FindsClose(s, i);
    var close := FindFrom(s, '>', i);
    if s[i] == '<' && close < |s| {
      TagGoes(s, i, close);
      KeepsOutsideFrom(s, close + 1);
    } else {
      PlainStays(s, i);
      KeepsOutsideFrom(s, i + 1);
    }
  }

  lemma NothingToKeep(s: string)
    ensures RemoveTags(s[|s|..]) == OutsideTags(s, |s|)
  {
  }

  lemma TagGoes(s: string, i: nat, close: nat)
    requires i < close < |s| && s[i] == '<' && s[close] == '>' && forall k :: i <= k < close ==> s[k] != '>'
    ensures Between(s, close + 1) && OutsideTags(s, i) == OutsideTags(s, close + 1)
  {
    hide Opened, OutsideTags;
    InsideGoes(s, i, i, close);
    OpenedNext(s, close);
  }

  lemma PlainStays(s: string, i: nat)
    requires i < |s| && Between(s, i) && (s[i] != '<' || !ClosesLater(s, i))
    ensures Between(s, i + 1)
    ensures OutsideTags(s, i) == [s[i]] + OutsideTags(s, i + 1)
  {
    hide Opened, ClosesLater;
    OpenedNext(s, i);
    ClosesNext(s, i);
  }

  lemma FindsClose(s: string, i: nat)
    requires i <= |s|
    ensures FindFrom(s, '>', i) < |s| <==> ClosesLater(s, i)
  {
  }

  /** From an opening '<' at `open` up to the first '>' at `close` nothing is kept. */
  lemma {:induction false} InsideGoes(s: string, open: nat, i: nat, close: nat)
    requires open <= i <= close < |s| && s[open] == '<' && s[close] == '>'
    requires forall k :: open <= k < close ==> s[k] != '>'
    ensures OutsideTags(s, i) == OutsideTags(s, close + 1)
    decreases close - i
  {
    hide *;
    InsideIsSkipped(s, open, i, close);
    if i < close { InsideGoes(s, open, i + 1, close); }
  }

  lemma InsideIsSkipped(s: string, open: nat, i: nat, close: nat)
    requires open <= i <= close < |s| && s[open] == '<' && s[close] == '>'
    requires forall k :: open <= k < close ==> s[k] != '>'
    ensures OutsideTags(s, i) == OutsideTags(s, i + 1)
  {
    InsideIsInTag(s, open, i, close);
    hide InTag;
  }

  lemma InsideIsInTag(s: string, open: nat, i: nat, close: nat)
    requires open <= i <= close < |s| && s[open] == '<' && s[close] == '>'
    requires forall k :: open <= k < close ==> s[k] != '>'
    ensures InTag(s, i)
  {
    assert s[i..][close - i] == '>';
    assert '>' !in s[open..i];
  }
}
