/** `stripTagsByIndex` (apps/dashboard/lib/sanitize-html.ts:33-46): what
    `sanitizeHtmlFragment` does where there is no DOM. */
module TagStrip {
  import opened Common
  import opened Tags

  /** One left-to-right pass that drops each '<' … '>' span and each '<' no '>' follows. */
  function SinglePass(s: string): (r: string)
    decreases |s|
  {
    if s == "" then ""
    else if s[0] != '<' then [s[0]] + SinglePass(s[1..])
    else SinglePass(s[DropEnd(s, 0)..])
  }

  /** Where the text goes on after the '<' at `open` is dealt with. */
  function DropEnd(s: string, open: nat): (end: nat)
    requires open < |s|
    ensures open < end <= |s|
  {
    var close := FindFrom(s, '>', open + 1);
    if close == |s| then open + 1 else close + 1
  }

  /** How many times the pass drops something. */
  function Drops(s: string): (n: nat)
    decreases |s|
  {
    if s == "" then 0
    else if s[0] != '<' then Drops(s[1..])
    else 1 + Drops(s[DropEnd(s, 0)..])
  }

  const GUARD := 512

  /** The loop that starts over from the beginning, at most `GUARD` times. */
  method StripTagsByIndex(html: string) returns (out: string)
    ensures out == AfterRounds(html, GUARD)
  {
    hide AfterRounds, Find;
    out := html;
    var guard := 0;
    while guard < GUARD
      invariant 0 <= guard <= GUARD
      invariant AfterRounds(html, GUARD) == AfterRounds(out, GUARD - guard)
    {
      var open := FindFrom(out, '<', 0);
      RoundCuts(out, GUARD - guard);
      if open == |out| {
        return;
      }
      var close := FindFrom(out, '>', open + 1);
      if close == |out| {
        out := out[..open] + out[open + 1..];
      } else {
        out := out[..open] + out[close + 1..];
      }
      guard := guard + 1;
    }
    NoRoundsLeft(out);
  }

  /** One round: the first '<' goes, with its span when a '>' follows. */
  function Round(s: string): (r: string) {
    var open := FindFrom(s, '<', 0);
    if open == |s| then s else s[..open] + s[DropEnd(s, open)..]
  }

  function AfterRounds(s: string, n: nat): (r: string)
    decreases n
  {
    if n == 0 then s else AfterRounds(Round(s), n - 1)
  }

  lemma NoRoundsLeft(s: string)
    ensures AfterRounds(s, 0) == s
  {
  }

  lemma RoundCuts(s: string, n: nat)
    requires n > 0
    ensures FindFrom(s, '<', 0) == |s| ==> AfterRounds(s, n) == s
    ensures FindFrom(s, '<', 0) < |s| ==> AfterRounds(s, n) == AfterRounds(Round(s), n - 1)
  {
    if FindFrom(s, '<', 0) == |s| { AfterRoundsDone(s, n); }
  }

  lemma {:induction false} AfterRoundsDone(s: string, n: nat)
    requires FindFrom(s, '<', 0) == |s|
    ensures AfterRounds(s, n) == s
    decreases n
  {
    hide FindFrom;
    if n > 0 { AfterRoundsDone(s, n - 1); }
  }

  // ---- starting over is the same as going on ----

  lemma PassFirst(x: char, s: string)
    requires x != '<'
    ensures SinglePass([x] + s) == [x] + SinglePass(s)
    ensures Drops([x] + s) == Drops(s)
  {
    var whole := [x] + s;
    assert whole[0] == x && whole[1..] == s;
  }

  lemma {:induction false} PassSkips(front: string, rest: string)
    requires '<' !in front
    ensures SinglePass(front + rest) == front + SinglePass(rest)
    ensures Drops(front + rest) == Drops(rest)
  {
    if front == "" {
      assert front + rest == rest;
    } else {
      hide SinglePass, Drops;
      PassSkips(front[1..], rest);
      PassFirst(front[0], front[1..] + rest);
      assert front == [front[0]] + front[1..] && front + rest == [front[0]] + (front[1..] + rest);
    }
  }

  lemma PassDrops(s: string)
    requires s != "" && s[0] == '<'
    ensures SinglePass(s) == SinglePass(s[DropEnd(s, 0)..]) && Drops(s) == 1 + Drops(s[DropEnd(s, 0)..])
  {
  }

  lemma NoOpenNoDrop(s: string)
    requires '<' !in s
    ensures SinglePass(s) == s && Drops(s) == 0
  {
    assert s + "" == s;
    PassSkips(s, "");
  }

  lemma DropEndShifts(front: string, rest: string)
    requires rest != ""
    ensures DropEnd(front + rest, |front|) == |front| + DropEnd(rest, 0)
  {
    hide Find;
    assert (front + rest)[|front| + 1..] == rest[1..];
  }

  lemma RoundOf(front: string, rest: string)
    requires '<' !in front && rest != "" && rest[0] == '<'
    ensures Round(front + rest) == front + rest[DropEnd(rest, 0)..]
  {
    var s := front + rest;
    assert FindFrom(s, '<', 0) == |front| by {
      assert s[0..] == s && s[|front|] == '<';
    }
    DropEndShifts(front, rest);
    hide FindFrom, DropEnd;
    assert s[..|front|] == front && s[DropEnd(s, |front|)..] == rest[DropEnd(rest, 0)..];
  }

  lemma RoundKeepsPass(s: string)
    ensures SinglePass(Round(s)) == SinglePass(s)
    ensures '<' in s ==> Drops(s) == 1 + Drops(Round(s))
    ensures '<' !in s ==> Drops(s) == 0 && SinglePass(s) == s && Round(s) == s
  {
    hide SinglePass, Drops, DropEnd, Find, Round;
    if '<' in s {
      var open := Find(s, '<');
      var front, rest := s[..open], s[open..];
      var next := rest[DropEnd(rest, 0)..];
      assert s == front + rest;
      RoundOf(front, rest);
      PassDrops(rest);
      PassSkips(front, rest);
      PassSkips(front, next);
    } else {
      NoOpenNoDrop(s);
      RoundOfNone(s);
    }
  }

  lemma RoundOfNone(s: string)
    requires '<' !in s
    ensures Round(s) == s
  {
    assert s[0..] == s;
  }

  lemma {:induction false} RoundsKeepPass(s: string, n: nat)
    ensures SinglePass(AfterRounds(s, n)) == SinglePass(s)
    ensures Drops(AfterRounds(s, n)) == if Drops(s) <= n then 0 else Drops(s) - n
    decreases n
  {
    hide SinglePass, Drops, Round;
    if n > 0 {
      RoundKeepsPass(s);
      RoundsKeepPass(Round(s), n - 1);
    }
  }

  lemma NoDropsIffNoOpen(s: string)
    ensures Drops(s) == 0 <==> '<' !in s
    ensures Drops(s) == 0 ==> SinglePass(s) == s
  {
    hide SinglePass, Drops, Round;
    RoundKeepsPass(s);
  }

  /** The guarded loop gives what one pass gives, without any '<', exactly when at most 512
      '<' lie outside earlier spans; otherwise a '<' is left. */
  lemma GuardedLoopIsOnePassIff(html: string)
    ensures '<' !in AfterRounds(html, GUARD) <==> Openers(html, 0) <= GUARD
    ensures AfterRounds(html, GUARD) == SinglePass(html) <==> Openers(html, 0) <= GUARD
  {
    hide SinglePass, Drops, AfterRounds, Openers;
    DropsAreOpeners(html);
    var out := AfterRounds(html, GUARD);
    RoundsKeepPass(html, GUARD);
    NoDropsIffNoOpen(out);
    PassLeavesNoOpen(html);
  }

  lemma {:induction false} PassLeavesNoOpen(s: string)
    ensures '<' !in SinglePass(s)
    decreases |s|
  {
    if s != "" {
      PassLeavesNoOpen(if s[0] == '<' then s[DropEnd(s, 0)..] else s[1..]);
    }
  }

  // ---- what the drops are ----

  function CountOf(s: string, c: char): (n: nat) {
    if s == "" then 0 else (if s[0] == c then 1 else 0) + CountOf(s[1..], c)
  }

  lemma {:induction false} CountOfSuffix(s: string, c: char, n: nat)
    requires n <= |s|
    ensures CountOf(s[n..], c) <= CountOf(s, c)
  {
    if n == 0 {
      assert s[0..] == s;
    } else {
      CountOfSuffix(s[1..], c, n - 1);
      assert s[n..] == s[1..][n - 1..];
    }
  }

  lemma {:induction false} DropsAtMostOpens(s: string)
    ensures Drops(s) <= CountOf(s, '<')
    decreases |s|
  {
    if s != "" {
      if s[0] == '<' {
        DropsAtMostOpens(s[DropEnd(s, 0)..]);
        CountOfSuffix(s[1..], '<', DropEnd(s, 0) - 1);
        assert s[1..][DropEnd(s, 0) - 1..] == s[DropEnd(s, 0)..];
      } else {
        DropsAtMostOpens(s[1..]);
      }
    }
  }

  /** With at most 512 '<' the loop is the single pass, and nothing is left to open a tag. */
  lemma FewOpensAreStripped(html: string)
    requires CountOf(html, '<') <= GUARD
    ensures AfterRounds(html, GUARD) == SinglePass(html) && '<' !in AfterRounds(html, GUARD)
  {
    hide AfterRounds, Drops, SinglePass, Openers;
    DropsAtMostOpens(html);
    DropsAreOpeners(html);
    GuardedLoopIsOnePassIff(html);
  }

  /** How many '<' from `i` on do not lie inside a span opened before them. */
  function Openers(s: string, i: nat): (n: nat)
    requires i <= |s|
    decreases |s| - i
  {
    if i == |s| then 0 else (if s[i] == '<' && Between(s, i) then 1 else 0) + Openers(s, i + 1)
  }

  /** One drop for each '<' that does not lie inside an earlier span. */
  lemma DropsAreOpeners(s: string)
    ensures Drops(s) == Openers(s, 0)
  {
    assert s[0..] == s;
    DropsFrom(s, 0);
  }

  lemma DropsUnfolds(s: string, i: nat)
    requires i < |s|
    ensures Drops(s[i..]) == if s[i] == '<' then 1 + Drops(s[DropEnd(s, i)..]) else Drops(s[i + 1..])
  {
    assert s[i..][1..] == s[i + 1..];
    if s[i] == '<' {
      assert s == s[..i] + s[i..];
      DropEndShifts(s[..i], s[i..]);
      assert s[i..][DropEnd(s[i..], 0)..] == s[DropEnd(s, i)..];
    }
  }

  lemma {:induction false} DropsFrom(s: string, i: nat)
    requires i <= |s| && Between(s, i)
    ensures Drops(s[i..]) == Openers(s, i)
    decreases |s| - i
  {
    if i == |s| { return; }
    DropsUnfolds(s, i);
    hide Drops, Openers, Between, Find, DropEnd;
    if s[i] == '<' {
      SpanHasOneOpener(s, i);
      DropsFrom(s, DropEnd(s, i));
    } else {
      NoOpenerHere(s, i);
      DropsFrom(s, i + 1);
    }
  }

  lemma NoOpenerHere(s: string, i: nat)
    requires i < |s| && Between(s, i) && s[i] != '<'
    ensures Between(s, i + 1) && Openers(s, i) == Openers(s, i + 1)
  {
    hide Opened, ClosesLater;
    OpenedNext(s, i);
    ClosesNext(s, i);
  }

  lemma SpanHasOneOpener(s: string, i: nat)
    requires i < |s| && Between(s, i) && s[i] == '<'
    ensures Between(s, DropEnd(s, i)) && Openers(s, i) == 1 + Openers(s, DropEnd(s, i))
  {
    hide Opened, ClosesLater, Find;
    OpenedNext(s, i);
    ClosesNext(s, i);
    FindsClose(s, i + 1);
    var close := FindFrom(s, '>', i + 1);
    if close < |s| {
      NoOpenerInside(s, i, i + 1, close);
      OpenedNext(s, close);
    }
  }

  lemma {:induction false} NoOpenerInside(s: string, open: nat, i: nat, close: nat)
    requires open < i <= close < |s| && s[open] == '<' && s[close] == '>'
    requires forall k :: open <= k < close ==> s[k] != '>'
    ensures Openers(s, i) == Openers(s, close + 1)
    decreases close - i
  {
    assert !Between(s, i) by {
      assert s[i..][close - i] == '>';
      assert '>' !in s[open..i];
    }
    if i < close { NoOpenerInside(s, open, i + 1, close); }
  }

  /** The single pass drops the tags the popup sanitizer drops, and then every '<' left. */
  lemma {:induction false} PassIsTagsThenOpens(s: string)
    ensures SinglePass(s) == RemoveAll(RemoveTags(s), '<')
    decreases |s|
  {
    if s != "" {
      FindNext(s);
      if s[0] == '<' && Find(s, '>') < |s| {
        PassIsTagsThenOpens(s[DropEnd(s, 0)..]);
      } else {
        PassIsTagsThenOpens(s[1..]);
        RemoveAllFirst(s[0], RemoveTags(s[1..]), '<');
      }
    }
  }

  lemma FindNext(s: string)
    requires s != ""
    ensures s[0] == '<' ==> Find(s, '>') == 1 + Find(s[1..], '>')
  {
  }

  /** A run of k unclosed '<' shows the bound is tight. */
  function Opens(k: nat): (s: string)
    ensures |s| == k && forall i :: 0 <= i < k ==> s[i] == '<'
  {
    seq(k, i => '<')
  }

  lemma {:induction false} OpensNeedDrops(k: nat)
    ensures Drops(Opens(k)) == k
  {
    if k > 0 {
      assert DropEnd(Opens(k), 0) == 1;
      assert Opens(k)[1..] == Opens(k - 1);
      OpensNeedDrops(k - 1);
    }
  }

  /** With 513 of them one is left. */
  lemma GuardIsTight()
    ensures '<' in AfterRounds(Opens(GUARD + 1), GUARD)
  {
    hide AfterRounds, Opens, Drops, SinglePass, Openers;
    OpensNeedDrops(GUARD + 1);
    DropsAreOpeners(Opens(GUARD + 1));
    GuardedLoopIsOnePassIff(Opens(GUARD + 1));
  }

  // ---- nothing is added ----

  lemma {:induction false} SubsequenceAfterPrefix(front: string, a: string, b: string)
    requires IsSubsequence(a, b)
    ensures IsSubsequence(front + a, front + b)
  {
    if front == "" {
      assert front + a == a && front + b == b;
    } else {
      SubsequenceAfterPrefix(front[1..], a, b);
      assert (front + a)[1..] == front[1..] + a && (front + b)[1..] == front[1..] + b;
    }
  }

  lemma RoundIsSubsequence(s: string)
    ensures IsSubsequence(Round(s), s)
  {
    hide Find;
    var open := FindFrom(s, '<', 0);
    if open == |s| {
      PrefixIsSubsequence(s, |s|);
      assert s[..|s|] == s;
    } else {
      var front, rest := s[..open], s[open..];
      var end := DropEnd(s, open);
      SuffixIsSubsequence(rest, end - open);
      assert rest[end - open..] == s[end..];
      SubsequenceAfterPrefix(front, s[end..], rest);
      assert front + rest == s;
    }
  }

  /** Whatever the number of rounds, and so even where the guard runs out, the text is had
      from the input by leaving characters out. */
  lemma {:induction false} RoundsAddNothing(s: string, n: nat)
    ensures IsSubsequence(AfterRounds(s, n), s)
    decreases n
  {
    hide Round, IsSubsequence;
    if n == 0 {
      PrefixIsSubsequence(s, |s|);
      assert s[..|s|] == s;
    } else {
      RoundsAddNothing(Round(s), n - 1);
      RoundIsSubsequence(s);
      SubsequenceTransitive(AfterRounds(s, n), Round(s), s);
    }
  }

  /** The single pass adds nothing either. */
  lemma PassAddsNothing(s: string)
    ensures IsSubsequence(SinglePass(s), s)
  {
    hide SinglePass, RemoveTags, IsSubsequence;
    PassIsTagsThenOpens(s);
    RemoveTagsIsSubsequence(s);
    RemoveAllIsSubsequence(RemoveTags(s), '<');
    SubsequenceTransitive(SinglePass(s), RemoveTags(s), s);
  }

  // ---- the loop as a pass that gives up ----

  /** The single pass, leaving the rest as it is after `n` drops. */
  function LimitedPass(s: string, n: nat): (r: string)
    decreases |s|
  {
    if s == "" || n == 0 then s
    else if s[0] != '<' then [s[0]] + LimitedPass(s[1..], n)
    else LimitedPass(s[DropEnd(s, 0)..], n - 1)
  }

  lemma LimitedFirst(x: char, s: string, n: nat)
    requires x != '<'
    ensures LimitedPass([x] + s, n) == [x] + LimitedPass(s, n)
  {
    var whole := [x] + s;
    assert whole[0] == x && whole[1..] == s;
  }

  lemma {:induction false} LimitedSkips(front: string, rest: string, n: nat)
    requires '<' !in front
    ensures LimitedPass(front + rest, n) == front + LimitedPass(rest, n)
  {
    if front == "" {
      assert front + rest == rest;
    } else {
      hide LimitedPass;
      LimitedSkips(front[1..], rest, n);
      LimitedFirst(front[0], front[1..] + rest, n);
      assert front == [front[0]] + front[1..] && front + rest == [front[0]] + (front[1..] + rest);
    }
  }

  lemma LimitedDrops(s: string, n: nat)
    requires s != "" && s[0] == '<' && n > 0
    ensures LimitedPass(s, n) == LimitedPass(s[DropEnd(s, 0)..], n - 1)
  {
  }

  lemma LimitedEnds(s: string, n: nat)
    ensures LimitedPass(s, 0) == s && LimitedPass("", n) == ""
  {
  }

  lemma RoundIsOneDrop(s: string, n: nat)
    requires n > 0
    ensures LimitedPass(Round(s), n - 1) == LimitedPass(s, n)
  {
    hide LimitedPass, DropEnd, Find, Round;
    if '<' in s {
      var open := Find(s, '<');
      var front, rest := s[..open], s[open..];
      assert s == front + rest;
      RoundOf(front, rest);
      LimitedSkips(front, rest, n);
      LimitedDrops(rest, n);
      LimitedSkips(front, rest[DropEnd(rest, 0)..], n - 1);
    } else {
      RoundOfNone(s);
      NothingToDrop(s, n);
      NothingToDrop(s, n - 1);
    }
  }

  lemma NothingToDrop(s: string, n: nat)
    requires '<' !in s
    ensures LimitedPass(s, n) == s
  {
    LimitedEnds(s, n);
    LimitedSkips(s, "", n);
    assert s + "" == s;
  }

  /** For every input, starting over each time for `n` rounds is one pass that stops dropping
      after `n` drops. */
  lemma {:induction false} LoopIsLimitedPass(s: string, n: nat)
    ensures AfterRounds(s, n) == LimitedPass(s, n)
    decreases n
  {
    hide LimitedPass, Round;
    if n == 0 {
      LimitedEnds(s, n);
    } else {
      LoopIsLimitedPass(Round(s), n - 1);
      RoundIsOneDrop(s, n);
    }
  }
}
