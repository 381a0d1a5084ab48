/** The tool cards of a chat thread (apps/dashboard/lib/agent-tool-thread.ts:34-123): live
    events and persisted calls become keyed cards, and batches of cards are merged by key. */
module ToolThread {
  import opened Common

  datatype Kind = ToolCall | ToolResult | ToolError

  datatype Card = Card(
    key: string,
    kind: Kind,
    runId: string,
    toolCallId: string,
    name: string,
    arguments: Option<string> := None,
    resultPreview: Option<string> := None,
    error: Option<string> := None,
    parentRunId: Option<string> := None,
    parentToolCallId: Option<string> := None,
    nestDepth: Option<int> := None)

  // ---- merging ----

  function Keys(s: seq<Card>): (keys: seq<string>)
    ensures |keys| == |s| && forall i :: 0 <= i < |s| ==> keys[i] == s[i].key
  {
    seq(|s|, i requires 0 <= i < |s| => s[i].key)
  }

  /** The last card of `s` with the given key. */
  function LastWith(s: seq<Card>, key: string): (c: Card)
    requires key in Keys(s)
    ensures c.key == key && c in s
  {
    var last := s[|s| - 1];
    if last.key == key then last
    else
      assert Keys(s) == Keys(s[..|s| - 1]) + [last.key];
      LastWith(s[..|s| - 1], key)
  }

  /** One card per key, the last one seen, in the order the keys were first seen. */
  function Latest(s: seq<Card>): (r: seq<Card>)
    ensures Keys(r) == Distinct(Keys(s))
  {
    var keys := Distinct(Keys(s));
    seq(|keys|, i requires 0 <= i < |keys| => LastWith(s, keys[i]))
  }

  /** `Map.set` on a map whose entries are kept in insertion order. */
  function MapSet(m: seq<Card>, e: Card): (r: seq<Card>) {
    var at := KeyAt(m, e.key);
    if at < |m| then m[at := e] else m + [e]
  }

  function KeyAt(m: seq<Card>, key: string): (at: nat)
    ensures at <= |m| && (forall i :: 0 <= i < at ==> m[i].key != key) && (at < |m| ==> m[at].key == key)
  {
    if m == [] || m[0].key == key then 0 else 1 + KeyAt(m[1..], key)
  }

  /** `mergeToolThreadEvents`. */
  method MergeToolThreadEvents(existing: seq<Card>, incoming: seq<Card>) returns (r: seq<Card>)
    ensures r == Latest(existing + incoming)
  {
    hide Latest, MapSet;
    var all := existing + incoming;
    var byKey: seq<Card> := [];
    LatestOfNone();
    for i := 0 to |existing|
      invariant byKey == Latest(all[..i])
    {
      byKey := MapSet(byKey, existing[i]);
      LatestSnoc(all[..i], existing[i]);
      assert all[..i + 1] == all[..i] + [existing[i]];
    }
    for i := 0 to |incoming|
      invariant byKey == Latest(all[..|existing| + i])
    {
      byKey := MapSet(byKey, incoming[i]);
      LatestSnoc(all[..|existing| + i], incoming[i]);
      assert all[..|existing| + i + 1] == all[..|existing| + i] + [incoming[i]];
    }
    assert all[..|all|] == all;
    r := byKey;
  }

  lemma LatestOfNone()
    ensures Latest([]) == []
  {
    assert Keys([]) == [];
  }

  lemma KeysAppend(a: seq<Card>, b: seq<Card>)
    ensures Keys(a + b) == Keys(a) + Keys(b)
  {
  }

  lemma LastWithSnoc(s: seq<Card>, e: Card, key: string)
    requires key in Keys(s + [e])
    ensures key == e.key ==> LastWith(s + [e], key) == e
    ensures key != e.key ==> key in Keys(s) && LastWith(s + [e], key) == LastWith(s, key)
  {
    KeysAppend(s, [e]);
    assert (s + [e])[..|s|] == s;
  }

  /** Setting one more entry is what keeps the map equal to its reference. */
  lemma LatestSnoc(s: seq<Card>, e: Card)
    ensures MapSet(Latest(s), e) == Latest(s + [e])
  {
    hide LastWith, KeyAt, Distinct;
    var m, longer := Latest(s), Latest(s + [e]);
    var keys := Distinct(Keys(s));
    KeysAppend(s, [e]);
    assert Keys([e]) == [e.key];
    DistinctSnoc(Keys(s), e.key);
    assert |MapSet(m, e)| == |longer| by { KeyAtFound(m, e.key); }
    forall i | 0 <= i < |longer| ensures MapSet(m, e)[i] == longer[i] {
      LastWithSnoc(s, e, Keys(longer)[i]);
      KeyAtFound(m, e.key);
      if i < |m| { assert Keys(m)[i] == keys[i]; }
    }
  }

  lemma KeyAtFound(m: seq<Card>, key: string)
    ensures KeyAt(m, key) < |m| <==> key in Keys(m)
  {
    if KeyAt(m, key) < |m| { assert Keys(m)[KeyAt(m, key)] == key; }
  }

  lemma {:induction false} LastWithAppend(a: seq<Card>, b: seq<Card>, key: string)
    requires key in Keys(a) || key in Keys(b)
    ensures key in Keys(a + b)
    ensures LastWith(a + b, key) == if key in Keys(b) then LastWith(b, key) else LastWith(a, key)
  {
    KeysAppend(a, b);
    if b == [] {
      assert a + b == a;
    } else {
      var front, last := b[..|b| - 1], b[|b| - 1];
      assert b == front + [last] && a + b == (a + front) + [last];
      KeysAppend(front, [last]);
      LastWithSnoc(a + front, last, key);
      LastWithOneMore(front, last, key);
      if key != last.key { LastWithAppend(a, front, key); }
    }
  }

  lemma LastWithOneMore(s: seq<Card>, e: Card, key: string)
    ensures key in Keys(s + [e]) <==> key in Keys(s) || key == e.key
    ensures key in Keys(s + [e]) ==> LastWith(s + [e], key) == if key == e.key then e else LastWith(s, key)
  {
    KeysAppend(s, [e]);
    assert Keys([e]) == [e.key];
    if key in Keys(s + [e]) { LastWithSnoc(s, e, key); }
  }

  lemma {:induction false} LastWithUnique(s: seq<Card>, i: nat)
    requires i < |s| && NoDuplicates(Keys(s))
    ensures s[i].key in Keys(s) && LastWith(s, s[i].key) == s[i]
  {
    assert Keys(s)[i] == s[i].key;
    if i < |s| - 1 {
      var front := s[..|s| - 1];
      assert Keys(s)[|s| - 1] != Keys(s)[i];
      assert NoDuplicates(Keys(front)) by {
        assert forall j :: 0 <= j < |front| ==> Keys(front)[j] == Keys(s)[j];
      }
      LastWithUnique(front, i);
    }
  }

  lemma LastWithLatest(s: seq<Card>, key: string)
    ensures key in Keys(Latest(s)) <==> key in Keys(s)
    ensures key in Keys(s) ==> LastWith(Latest(s), key) == LastWith(s, key)
  {
    hide LastWith, Distinct;
    var m := Latest(s);
    if key in Keys(s) {
      var i :| 0 <= i < |m| && Keys(m)[i] == key;
      LastWithUnique(m, i);
    }
  }

  /** Two batches are alike when they have the same distinct keys and last cards. */
  lemma SameLatest(a: seq<Card>, b: seq<Card>)
    requires Distinct(Keys(a)) == Distinct(Keys(b))
    requires forall k :: k in Keys(a) ==> k in Keys(b) && LastWith(a, k) == LastWith(b, k)
    ensures Latest(a) == Latest(b)
  {
    hide LastWith, Distinct;
    var keys := Distinct(Keys(a));
    forall i | 0 <= i < |keys| ensures Latest(a)[i] == Latest(b)[i] {
      assert keys[i] in Keys(a);
    }
  }

  lemma AbsorbsLeft(a: seq<Card>, b: seq<Card>)
    ensures Latest(Latest(a) + b) == Latest(a + b)
  {
    hide LastWith, Distinct, Latest;
    KeysAppend(a, b);
    KeysAppend(Latest(a), b);
    DistinctAbsorbsLeft(Keys(a), Keys(b));
    forall k | k in Keys(Latest(a) + b)
      ensures k in Keys(a + b) && LastWith(Latest(a) + b, k) == LastWith(a + b, k)
    {
      LastWithLatest(a, k);
      LastWithAppend(a, b, k);
      LastWithAppend(Latest(a), b, k);
    }
    SameLatest(Latest(a) + b, a + b);
  }

  lemma AbsorbsRight(a: seq<Card>, b: seq<Card>)
    ensures Latest(a + Latest(b)) == Latest(a + b)
  {
    hide LastWith, Distinct, Latest;
    KeysAppend(a, b);
    KeysAppend(a, Latest(b));
    DistinctAbsorbsRight(Keys(a), Keys(b));
    forall k | k in Keys(a + Latest(b))
      ensures k in Keys(a + b) && LastWith(a + Latest(b), k) == LastWith(a + b, k)
    {
      LastWithLatest(b, k);
      LastWithAppend(a, b, k);
      LastWithAppend(a, Latest(b), k);
    }
    SameLatest(a + Latest(b), a + b);
  }

  /** What the merging method computes. */
  function Merge(existing: seq<Card>, incoming: seq<Card>): (r: seq<Card>) {
    Latest(existing + incoming)
  }

  /** Merging is associative. */
  lemma MergeIsAssociative(a: seq<Card>, b: seq<Card>, c: seq<Card>)
    ensures Merge(Merge(a, b), c) == Merge(a, Merge(b, c))
  {
    hide *;
    MergeLeft(a, b, c);
    MergeRight(a, b, c);
    assert (a + b) + c == a + (b + c);
  }

  lemma MergeLeft(a: seq<Card>, b: seq<Card>, c: seq<Card>)
    ensures Merge(Merge(a, b), c) == Latest((a + b) + c)
  {
    hide Latest;
    AbsorbsLeft(a + b, c);
  }

  lemma MergeRight(a: seq<Card>, b: seq<Card>, c: seq<Card>)
    ensures Merge(a, Merge(b, c)) == Latest(a + (b + c))
  {
    hide Latest;
    AbsorbsRight(a, b + c);
  }

  /** Batches merged in any grouping. */
  datatype Merges = Batch(cards: seq<Card>) | Of(left: Merges, right: Merges) {
    function Merged(): (r: seq<Card>) {
      match this
      case Batch(cards) => cards
      case Of(left, right) => Merge(left.Merged(), right.Merged())
    }

    /** Every card of every batch, in order. */
    function AllCards(): (r: seq<Card>) {
      match this
      case Batch(cards) => cards
      case Of(left, right) => left.AllCards() + right.AllCards()
    }
  }

  /** However the merges are grouped, the outcome is one merge of all the cards in order. */
  lemma {:induction false} GroupingDoesNotMatter(m: Merges)
    ensures Latest(m.Merged()) == Latest(m.AllCards())
    ensures m.Of? ==> m.Merged() == Latest(m.AllCards())
  {
    hide Latest;
    if m.Of? {
      var l, r := m.left, m.right;
      GroupingDoesNotMatter(l);
      GroupingDoesNotMatter(r);
      AbsorbsLeft(l.Merged(), r.Merged());
      AbsorbsLeft(l.AllCards(), r.Merged());
      AbsorbsRight(l.AllCards(), r.Merged());
      AbsorbsRight(l.AllCards(), r.AllCards());
      AbsorbsRight([], l.AllCards() + r.AllCards());
      AbsorbsLeft(m.AllCards(), []);
      assert Latest(m.AllCards()) + [] == Latest(m.AllCards()) && m.AllCards() + [] == m.AllCards();
    }
  }

  /** `c` stands at `i`, and no later card has its key. */
  predicate IsLastOf(s: seq<Card>, i: nat, c: Card) {
    i < |s| && s[i] == c && forall j :: i < j < |s| ==> s[j].key != c.key
  }

  lemma {:induction false} LastWithIsLast(s: seq<Card>, key: string) returns (i: nat)
    requires key in Keys(s)
    ensures IsLastOf(s, i, LastWith(s, key))
  {
    i := |s| - 1;
    if s[i].key != key {
      assert Keys(s) == Keys(s[..i]) + [s[i].key];
      i := LastWithIsLast(s[..|s| - 1], key);
    }
  }

  lemma MergedIsLast(s: seq<Card>, c: Card)
    requires c in Latest(s)
    ensures exists i: nat :: IsLastOf(s, i, c)
  {
    var m := Latest(s);
    var k :| 0 <= k < |m| && m[k] == c;
    assert Keys(m)[k] == c.key && c.key in Keys(s);
    var i := LastWithIsLast(s, c.key);
  }

  /** Keys are unique and in first-seen order, each with the card last seen for it. */
  lemma MergeKeepsLastOfEachKey(a: seq<Card>, b: seq<Card>)
    ensures NoDuplicates(Keys(Merge(a, b))) && Keys(Merge(a, b)) == Distinct(Keys(a) + Keys(b))
    ensures forall c :: c in Merge(a, b) ==>
      c == if c.key in Keys(b) then LastWith(b, c.key) else if c.key in Keys(a) then LastWith(a, c.key) else c
    ensures forall c :: c in Merge(a, b) ==> exists i: nat :: IsLastOf(a + b, i, c)
  {
    forall c | c in Merge(a, b) ensures exists i: nat :: IsLastOf(a + b, i, c) {
      MergedIsLast(a + b, c);
    }
    hide LastWith, Distinct;
    KeysAppend(a, b);
    var m := Merge(a, b);
    forall c | c in m
      ensures c == if c.key in Keys(b) then LastWith(b, c.key) else if c.key in Keys(a) then LastWith(a, c.key) else c
    {
      var i :| 0 <= i < |m| && m[i] == c;
      if c.key in Keys(a) || c.key in Keys(b) { LastWithAppend(a, b, c.key); }
    }
  }

  /** Every card of `b` is already what `m` shows for its key. */
  predicate NothingNew(m: seq<Card>, b: seq<Card>) {
    forall k :: k in Keys(b) ==> k in Keys(m) && LastWith(m, k) == LastWith(b, k)
  }

  /** Merging `b` into a merged thread changes nothing exactly when the last card of each of
      its keys is already shown. */
  lemma MergeChangesNothingIff(m: seq<Card>, b: seq<Card>)
    requires NoDuplicates(Keys(m))
    ensures Merge(m, b) == m <==> NothingNew(m, b)
  {
    hide LastWith, Distinct, Latest;
    LatestOfUnique(m);
    KeysAppend(m, b);
    if NothingNew(m, b) {
      DistinctOfKnown(Keys(m), Keys(b));
      forall k | k in Keys(m + b) ensures k in Keys(m) && LastWith(m + b, k) == LastWith(m, k) {
        LastWithAppend(m, b, k);
      }
      SameLatest(m + b, m);
    }
    if Merge(m, b) == m {
      forall k | k in Keys(b) ensures k in Keys(m) && LastWith(m, k) == LastWith(b, k) {
        LastWithAppend(m, b, k);
        LastWithLatest(m + b, k);
      }
    }
  }

  lemma {:induction false} LatestOfUnique(m: seq<Card>)
    requires NoDuplicates(Keys(m))
    ensures Latest(m) == m
  {
    hide LastWith, Distinct;
    DistinctOfNoDuplicates(Keys(m));
    forall i | 0 <= i < |m| ensures Latest(m)[i] == m[i] {
      LastWithUnique(m, i);
    }
  }

  lemma {:induction false} DistinctOfKnown(a: seq<string>, b: seq<string>)
    requires forall x :: x in b ==> x in a
    ensures Distinct(a + b) == Distinct(a)
  {
    if b == [] {
      assert a + b == a;
    } else {
      hide Distinct;
      var front, last := b[..|b| - 1], b[|b| - 1];
      assert b == front + [last] && a + b == (a + front) + [last];
      DistinctOfKnown(a, front);
      DistinctSnoc(a + front, last);
    }
  }

  /** A batch delivered twice in a row is absorbed. */
  lemma RedeliveryIsAbsorbed(m: seq<Card>, b: seq<Card>)
    ensures Merge(Merge(m, b), b) == Merge(m, b)
  {
    hide LastWith, Distinct, Latest;
    var once := Merge(m, b);
    KeysAppend(m, b);
    forall k | k in Keys(b) ensures k in Keys(once) && LastWith(once, k) == LastWith(b, k) {
      LastWithAppend(m, b, k);
      LastWithLatest(m + b, k);
    }
    MergeChangesNothingIff(once, b);
  }

  // ---- persisted calls ----

  datatype PersistedCall = PersistedCall(
    id: string, name: string, arguments: string, resultPreview: Option<string>, success: Option<bool>)

  function Suffix(kind: Kind): (s: string) {
    match kind
    case ToolCall => "call"
    case ToolResult => "result"
    case ToolError => "error"
  }

  function KeyOf(runId: string, id: string, kind: Kind): (key: string) {
    runId + ":" + id + ":" + Suffix(kind)
  }

  /** The kind of the card that follows a call's own card, if any. */
  function Outcome(tc: PersistedCall): (kind: Option<Kind>) {
    if tc.success == Some(false) then Some(ToolError)
    else if tc.success == Some(true) || tc.resultPreview.GetOr("") != "" then Some(ToolResult)
    else None
  }

  function CardFor(runId: string, tc: PersistedCall, kind: Kind): (c: Card) {
    var base := Card(KeyOf(runId, tc.id, kind), kind, runId, tc.id, tc.name);
    match kind
    case ToolCall => base.(arguments := Some(tc.arguments))
    case ToolResult => base.(resultPreview := tc.resultPreview)
    case ToolError => base.(error := Some(tc.resultPreview.GetOr("tool_failed")))
  }

  function CardsOf(runId: string, tc: PersistedCall): (r: seq<Card>) {
    [CardFor(runId, tc, ToolCall)] + if Outcome(tc).Some? then [CardFor(runId, tc, Outcome(tc).value)] else []
  }

  function Expanded(runId: string, calls: seq<PersistedCall>): (r: seq<Card>) {
    if calls == [] then [] else Expanded(runId, calls[..|calls| - 1]) + CardsOf(runId, calls[|calls| - 1])
  }

  /** `toolCallsToThreadEvents`. */
  method ToolCallsToThreadEvents(runId: string, toolCalls: seq<PersistedCall>) returns (events: seq<Card>)
    ensures events == Expanded(runId, toolCalls)
  {
    events := [];
    for i := 0 to |toolCalls|
      invariant events == Expanded(runId, toolCalls[..i])
    {
      var tc := toolCalls[i];
      ghost var before := events;
      events := events + [Card(runId + ":" + tc.id + ":call", ToolCall, runId, tc.id, tc.name, arguments := Some(tc.arguments))];
      if tc.success == Some(false) {
        events := events
          + [Card(runId + ":" + tc.id + ":error", ToolError, runId, tc.id, tc.name,
              error := Some(tc.resultPreview.GetOr("tool_failed")))];
      } else if tc.success == Some(true) || (tc.resultPreview.Some? && tc.resultPreview.value != "") {
        events := events
          + [Card(runId + ":" + tc.id + ":result", ToolResult, runId, tc.id, tc.name, resultPreview := tc.resultPreview)];
      }
      KeyTexts(runId, tc.id);
      assert events == before + CardsOf(runId, tc);
      assert toolCalls[..i + 1][..i] == toolCalls[..i];
    }
    assert toolCalls[..|toolCalls|] == toolCalls;
  }

  lemma KeyTexts(runId: string, id: string)
    ensures KeyOf(runId, id, ToolCall) == runId + ":" + id + ":call"
    ensures KeyOf(runId, id, ToolResult) == runId + ":" + id + ":result"
    ensures KeyOf(runId, id, ToolError) == runId + ":" + id + ":error"
  {
    var base := runId + ":" + id;
    assert (base + ":") + "call" == base + (":" + "call");
    assert (base + ":") + "result" == base + (":" + "result");
    assert (base + ":") + "error" == base + (":" + "error");
  }

  /** Two keys are equal exactly when their kinds are and their run and call ids spell the
      same text; within one run that means the same call. */
  lemma SameKeyIff(r1: string, id1: string, k1: Kind, r2: string, id2: string, k2: Kind)
    ensures KeyOf(r1, id1, k1) == KeyOf(r2, id2, k2) <==> k1 == k2 && r1 + ":" + id1 == r2 + ":" + id2
    ensures r1 == r2 ==> (KeyOf(r1, id1, k1) == KeyOf(r2, id2, k2) <==> k1 == k2 && id1 == id2)
  {
    var a, b := r1 + ":" + id1, r2 + ":" + id2;
    var x, y := KeyOf(r1, id1, k1), KeyOf(r2, id2, k2);
    assert x == a + (":" + Suffix(k1)) && y == b + (":" + Suffix(k2));
    if x == y {
      assert x[|x| - 1] == Suffix(k1)[|Suffix(k1)| - 1] && y[|y| - 1] == Suffix(k2)[|Suffix(k2)| - 1];
      assert k1 == k2;
      assert a == x[..|a|] && b == y[..|b|];
    }
    if r1 == r2 && a == b {
      assert id1 == a[|r1| + 1..] && id2 == b[|r2| + 1..];
    }
  }

  /** Some calls of the two runs have the same key exactly when the runs are the same, or one
      run id is the other one followed by a colon and more. */
  lemma RunsShareKeysIff(r1: string, r2: string, kind: Kind)
    ensures (exists id1, id2 :: KeyOf(r1, id1, kind) == KeyOf(r2, id2, kind))
        <==> r1 == r2 || r1 + ":" <= r2 || r2 + ":" <= r1
  {
    hide KeyOf;
    if r1 == r2 {
      assert KeyOf(r1, "", kind) == KeyOf(r2, "", kind);
    } else if r1 + ":" <= r2 {
      LongerRunShares(r1, r2, kind);
    } else if r2 + ":" <= r1 {
      LongerRunShares(r2, r1, kind);
    }
    if id1, id2 :| KeyOf(r1, id1, kind) == KeyOf(r2, id2, kind) {
      SameKeyIff(r1, id1, kind, r2, id2, kind);
      OneContinues(r1, id1, r2, id2);
    }
  }

  lemma OneContinues(r1: string, id1: string, r2: string, id2: string)
    requires r1 + ":" + id1 == r2 + ":" + id2
    ensures r1 == r2 || r1 + ":" <= r2 || r2 + ":" <= r1
  {
    var text := r1 + ":" + id1;
    assert text[..|r1|] == r1 && text[..|r1| + 1] == r1 + ":";
    assert text[..|r2|] == r2 && text[..|r2| + 1] == r2 + ":";
    if |r1| < |r2| {
      assert r2[..|r1| + 1] == text[..|r1| + 1];
    } else if |r2| < |r1| {
      assert r1[..|r2| + 1] == text[..|r2| + 1];
    }
  }

  lemma LongerRunShares(short: string, long: string, kind: Kind)
    requires short + ":" <= long
    ensures exists id1, id2 :: KeyOf(short, id1, kind) == KeyOf(long, id2, kind)
    ensures exists id1, id2 :: KeyOf(long, id1, kind) == KeyOf(short, id2, kind)
  {
    var id := long[|short| + 1..] + ":";
    assert short + ":" + id == long + ":" + "";
    SameKeyIff(short, id, kind, long, "", kind);
  }

  /** The call has a card of this kind: its own; an error when it failed; a result when it did
      not fail and either succeeded or has a preview. */
  predicate HasCard(tc: PersistedCall, id: string, kind: Kind) {
    && tc.id == id
    && match kind
      case ToolCall => true
      case ToolError => tc.success == Some(false)
      case ToolResult =>
        tc.success != Some(false) && (tc.success == Some(true) || (tc.resultPreview.Some? && tc.resultPreview.value != ""))
  }

  /** The thread shows a card for a call id and kind exactly when a call with that id asks
      for it. */
  lemma {:induction false} ShowsIff(runId: string, calls: seq<PersistedCall>, id: string, kind: Kind)
    ensures KeyOf(runId, id, kind) in Keys(Expanded(runId, calls)) <==> exists tc :: tc in calls && HasCard(tc, id, kind)
  {
    if calls == [] { return; }
    hide KeyOf;
    var front, last := calls[..|calls| - 1], calls[|calls| - 1];
    ShowsIff(runId, front, id, kind);
    LastShowsIff(runId, last, id, kind);
    KeysAppend(Expanded(runId, front), CardsOf(runId, last));
    hide *;
    assert calls == front + [last];
    if tc :| tc in front && HasCard(tc, id, kind) { assert tc in calls; }
    if HasCard(last, id, kind) { assert last in calls; }
    assert Keys(Expanded(runId, calls)) == Keys(Expanded(runId, front)) + Keys(CardsOf(runId, last)) by {
      ExpandedSnoc(runId, front, last);
    }
  }

  lemma ExpandedSnoc(runId: string, calls: seq<PersistedCall>, last: PersistedCall)
    ensures Expanded(runId, calls + [last]) == Expanded(runId, calls) + CardsOf(runId, last)
    ensures Keys(Expanded(runId, calls + [last])) == Keys(Expanded(runId, calls)) + Keys(CardsOf(runId, last))
  {
    hide CardsOf;
    assert (calls + [last])[..|calls|] == calls;
  }

  lemma LastShowsIff(runId: string, tc: PersistedCall, id: string, kind: Kind)
    ensures KeyOf(runId, id, kind) in Keys(CardsOf(runId, tc)) <==> HasCard(tc, id, kind)
  {
    hide KeyOf;
    var cards := CardsOf(runId, tc);
    SameKeyIff(runId, id, kind, runId, tc.id, ToolCall);
    SameKeyIff(runId, id, kind, runId, tc.id, Outcome(tc).GetOr(ToolCall));
    assert Keys(cards)[0] == KeyOf(runId, tc.id, ToolCall);
    if Outcome(tc).Some? { assert Keys(cards)[1] == KeyOf(runId, tc.id, Outcome(tc).value); }
  }

  function Ids(calls: seq<PersistedCall>): (ids: seq<string>)
    ensures |ids| == |calls| && forall i :: 0 <= i < |calls| ==> ids[i] == calls[i].id
  {
    seq(|calls|, i requires 0 <= i < |calls| => calls[i].id)
  }

  /** The cards of a run have distinct keys exactly when its calls have distinct ids. */
  lemma {:induction false} KeysUniqueIffIdsAre(runId: string, calls: seq<PersistedCall>)
    ensures NoDuplicates(Keys(Expanded(runId, calls))) <==> NoDuplicates(Ids(calls))
  {
    if calls == [] { return; }
    hide Expanded, CardsOf, KeyOf, Outcome, NoDuplicates;
    var front, last := calls[..|calls| - 1], calls[|calls| - 1];
    KeysUniqueIffIdsAre(runId, front);
    assert calls == front + [last];
    assert Ids(calls) == Ids(front) + [last.id];
    ExpandedSnoc(runId, front, last);
    OneCallUnique(runId, last);
    NoDuplicatesAppend(Keys(Expanded(runId, front)), Keys(CardsOf(runId, last)));
    NoDuplicatesAppend(Ids(front), [last.id]);
    NoDuplicatesOne(last.id);
    assert (exists k :: k in Keys(Expanded(runId, front)) && k in Keys(CardsOf(runId, last))) <==> last.id in Ids(front) by {
      ClashIffSameId(runId, front, last);
    }
  }

  lemma NoDuplicatesOne<T>(x: T)
    ensures NoDuplicates([x])
  {
  }

  lemma NoDuplicatesAppend<T(!new)>(a: seq<T>, b: seq<T>)
    ensures NoDuplicates(a + b) <==>
      NoDuplicates(a) && NoDuplicates(b) && !(exists x :: x in a && x in b)
  {
    var s := a + b;
    if NoDuplicates(s) {
      forall i, j | 0 <= i < j < |a| ensures a[i] != a[j] { assert s[i] == a[i] && s[j] == a[j]; }
      forall i, j | 0 <= i < j < |b| ensures b[i] != b[j] { assert s[|a| + i] == b[i] && s[|a| + j] == b[j]; }
      forall i, j | 0 <= i < |a| && 0 <= j < |b| ensures a[i] != b[j] { assert s[i] == a[i] && s[|a| + j] == b[j]; }
    }
    if NoDuplicates(a) && NoDuplicates(b) && !(exists x :: x in a && x in b) {
      forall i, j | 0 <= i < j < |s| ensures s[i] != s[j] {
        if i < |a| <= j { assert s[i] in a && s[j] in b; }
      }
    }
  }

  lemma OneCallUnique(runId: string, tc: PersistedCall)
    ensures NoDuplicates(Keys(CardsOf(runId, tc)))
  {
    hide KeyOf;
    SameKeyIff(runId, tc.id, ToolCall, runId, tc.id, Outcome(tc).GetOr(ToolCall));
  }

  lemma ClashIffSameId(runId: string, front: seq<PersistedCall>, last: PersistedCall)
    ensures (exists k :: k in Keys(Expanded(runId, front)) && k in Keys(CardsOf(runId, last))) <==> last.id in Ids(front)
  {
    hide Expanded, KeyOf;
    var cards := CardsOf(runId, last);
    forall k | k in Keys(cards) ensures k in Keys(Expanded(runId, front)) ==> last.id in Ids(front) {
      var i :| 0 <= i < |cards| && Keys(cards)[i] == k;
      ShowsIff(runId, front, last.id, cards[i].kind);
      if tc :| tc in front && HasCard(tc, last.id, cards[i].kind) {
        var j :| 0 <= j < |front| && front[j] == tc;
        assert Ids(front)[j] == last.id;
      }
    }
    if last.id in Ids(front) {
      var j :| 0 <= j < |front| && Ids(front)[j] == last.id;
      assert HasCard(front[j], last.id, ToolCall);
      ShowsIff(runId, front, last.id, ToolCall);
      assert Keys(cards)[0] == KeyOf(runId, last.id, ToolCall);
    }
  }

  /** A card that is not a call's own card comes right after the card of its call. */
  lemma {:induction false} OutcomeFollowsItsCall(runId: string, calls: seq<PersistedCall>, i: nat)
    requires i < |Expanded(runId, calls)| && Expanded(runId, calls)[i].kind != ToolCall
    ensures i > 0
    ensures
      var before, c := Expanded(runId, calls)[i - 1], Expanded(runId, calls)[i];
      before.kind == ToolCall && before.key == KeyOf(runId, c.toolCallId, ToolCall)
      && before.toolCallId == c.toolCallId && before.name == c.name
  {
    hide KeyOf;
    var front := Expanded(runId, calls[..|calls| - 1]);
    if i < |front| { OutcomeFollowsItsCall(runId, calls[..|calls| - 1], i); }
  }

  /** With distinct ids a call has at most one card for its result or error. */
  lemma OneOutcomePerCall(runId: string, calls: seq<PersistedCall>, i: nat, j: nat)
    requires i < j < |Expanded(runId, calls)| && NoDuplicates(Ids(calls))
    requires Expanded(runId, calls)[i].kind != ToolCall && Expanded(runId, calls)[j].kind != ToolCall
    ensures Expanded(runId, calls)[i].toolCallId != Expanded(runId, calls)[j].toolCallId
  {
    hide Expanded, KeyOf;
    var cards := Expanded(runId, calls);
    KeysUniqueIffIdsAre(runId, calls);
    OutcomeFollowsItsCall(runId, calls, i);
    OutcomeFollowsItsCall(runId, calls, j);
    assert Keys(cards)[i - 1] != Keys(cards)[j - 1];
  }

  /** The cards of a run with distinct ids go into an empty thread as they are, and going in
      again they change nothing. */
  lemma ExpandedCardsSettle(runId: string, calls: seq<PersistedCall>)
    requires NoDuplicates(Ids(calls))
    ensures Merge([], Expanded(runId, calls)) == Expanded(runId, calls)
    ensures Merge(Expanded(runId, calls), Expanded(runId, calls)) == Expanded(runId, calls)
  {
    hide Expanded, Latest, KeyOf;
    var cards := Expanded(runId, calls);
    KeysUniqueIffIdsAre(runId, calls);
    LatestOfUnique(cards);
    assert [] + cards == cards;
    RedeliveryIsAbsorbed([], cards);
  }

  // ---- live events ----

  datatype LiveEvent =
    | LiveCall(runId: string, toolCallId: string, name: string, arguments: string, nest: Nesting)
    | LiveResult(runId: string, toolCallId: string, name: string, preview: string, nest: Nesting)
    | LiveError(runId: string, toolCallId: string, name: string, error: Option<string>, nest: Nesting)
    | OtherEvent

  datatype Nesting = Nesting(parentRunId: Option<string>, parentToolCallId: Option<string>, depth: int)

  /** `fluxyEventToToolThreadEvent`; `preview` is the printed and shortened result. */
  function CardOfLive(e: LiveEvent): (c: Option<Card>) {
    match e
    case OtherEvent => None
    case LiveCall(runId, id, name, arguments, nest) =>
      Some(Card(KeyOf(runId, id, ToolCall), ToolCall, runId, id, name, arguments := Some(arguments),
        parentRunId := nest.parentRunId, parentToolCallId := nest.parentToolCallId, nestDepth := Some(nest.depth)))
    case LiveResult(runId, id, name, preview, nest) =>
      Some(Card(KeyOf(runId, id, ToolResult), ToolResult, runId, id, name, resultPreview := Some(preview),
        parentRunId := nest.parentRunId, parentToolCallId := nest.parentToolCallId, nestDepth := Some(nest.depth)))
    case LiveError(runId, id, name, error, nest) =>
      Some(Card(KeyOf(runId, id, ToolError), ToolError, runId, id, name, error := Some(error.GetOr("tool_failed")),
        parentRunId := nest.parentRunId, parentToolCallId := nest.parentToolCallId, nestDepth := Some(nest.depth)))
  }

  /** Loading the persisted calls of a run replaces a live card of the run exactly when a
      persisted call with its id ended the same way; other live cards stay. */
  lemma LiveCardIsReplacedIff(thread: seq<Card>, e: LiveEvent, calls: seq<PersistedCall>)
    requires CardOfLive(e).Some? && NoDuplicates(Keys(thread)) && CardOfLive(e).value in thread
    ensures CardOfLive(e).value in Merge(thread, Expanded(e.runId, calls)) <==>
      !(exists tc :: tc in calls && HasCard(tc, e.toolCallId, CardOfLive(e).value.kind))
  {
    hide Expanded, Latest, KeyOf, LastWith;
    var c := CardOfLive(e).value;
    var cards := Expanded(e.runId, calls);
    var merged := Merge(thread, cards);
    ShowsIff(e.runId, calls, e.toolCallId, c.kind);
    KeysAppend(thread, cards);
    var i :| 0 <= i < |thread| && thread[i] == c;
    LastWithUnique(thread, i);
    LastWithAppend(thread, cards, c.key);
    LastWithLatest(thread + cards, c.key);
    if c.key in Keys(cards) {
      MergeKeepsLastOfEachKey(thread, cards);
      PersistedHasNoDepth(e.runId, calls, LastWith(cards, c.key));
    } else {
      assert LastWith(merged, c.key) == c;
    }
  }

  lemma {:induction false} PersistedHasNoDepth(runId: string, calls: seq<PersistedCall>, c: Card)
    requires c in Expanded(runId, calls)
    ensures c.nestDepth == None
  {
    hide KeyOf;
    var front := Expanded(runId, calls[..|calls| - 1]);
    if c in front { PersistedHasNoDepth(runId, calls[..|calls| - 1], c); }
  }

  // ---- what the cards say ----

  /** The card carries over what the call says, for its kind. */
  predicate CardSays(c: Card, runId: string, tc: PersistedCall) {
    && c.runId == runId && c.toolCallId == tc.id && c.name == tc.name && HasCard(tc, tc.id, c.kind)
    && c.parentRunId == None && c.parentToolCallId == None && c.nestDepth == None
    && c.arguments == (if c.kind == ToolCall then Some(tc.arguments) else None)
    && c.resultPreview == (if c.kind == ToolResult then tc.resultPreview else None)
    && c.error == (if c.kind != ToolError then None else if tc.resultPreview.Some? then tc.resultPreview else Some("tool_failed"))
    && c.key == runId + ":" + tc.id + match c.kind case ToolCall => ":call" case ToolResult => ":result" case ToolError => ":error"
  }

  /** Each card of a run says what one of its calls does, in full. */
  lemma {:induction false} CardsSayWhatCallsDo(runId: string, calls: seq<PersistedCall>, c: Card)
    requires c in Expanded(runId, calls)
    ensures exists tc :: tc in calls && CardSays(c, runId, tc)
  {
    var front, last := calls[..|calls| - 1], calls[|calls| - 1];
    if c in Expanded(runId, front) {
      CardsSayWhatCallsDo(runId, front, c);
    } else {
      KeyTexts(runId, last.id);
      hide KeyOf;
      assert CardSays(c, runId, last);
    }
  }

  /** The ids of the calls' own cards. */
  function CallCards(cards: seq<Card>): (ids: seq<string>) {
    if cards == [] then []
    else CallCards(cards[..|cards| - 1]) + if cards[|cards| - 1].kind == ToolCall then [cards[|cards| - 1].toolCallId] else []
  }

  /** The calls' own cards come one for each call, in the order of the calls. */
  lemma {:induction false} CallCardsInOrder(runId: string, calls: seq<PersistedCall>)
    ensures CallCards(Expanded(runId, calls)) == Ids(calls)
  {
    if calls == [] {
      assert Expanded(runId, calls) == [] && Ids(calls) == [];
    } else {
      var front, last := calls[..|calls| - 1], calls[|calls| - 1];
      hide CallCards, CardsOf, Expanded;
      CallCardsInOrder(runId, front);
      assert calls == front + [last];
      ExpandedSnoc(runId, front, last);
      OneCallCard(Expanded(runId, front), runId, last);
      assert Ids(calls) == Ids(front) + [last.id];
    }
  }

  lemma OneCallCard(before: seq<Card>, runId: string, tc: PersistedCall)
    ensures CallCards(before + CardsOf(runId, tc)) == CallCards(before) + [tc.id]
  {
    hide KeyOf;
    var cards := CardsOf(runId, tc);
    var whole := before + cards;
    if |cards| == 1 {
      assert whole[..|whole| - 1] == before;
    } else {
      var own := before + [cards[0]];
      assert whole[..|whole| - 1] == own && own[..|own| - 1] == before;
    }
  }

  /** A live event's card says what the event says. */
  lemma LiveCardSays(e: LiveEvent)
    ensures e.OtherEvent? <==> CardOfLive(e) == None
    ensures !e.OtherEvent? ==>
      var c := CardOfLive(e).value;
      && c.runId == e.runId && c.toolCallId == e.toolCallId && c.name == e.name && c.nestDepth == Some(e.nest.depth)
      && c.parentRunId == e.nest.parentRunId && c.parentToolCallId == e.nest.parentToolCallId
      && c.arguments == (if e.LiveCall? then Some(e.arguments) else None)
      && c.resultPreview == (if e.LiveResult? then Some(e.preview) else None)
      && c.error == (if !e.LiveError? then None else if e.error.Some? then e.error else Some("tool_failed"))
      && c.key == e.runId + ":" + e.toolCallId + if e.LiveCall? then ":call" else if e.LiveResult? then ":result" else ":error"
  {
    if !e.OtherEvent? { KeyTexts(e.runId, e.toolCallId); }
  }
}
