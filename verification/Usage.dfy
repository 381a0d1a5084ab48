/** Token usage (packages/agent/src/ai-core.ts): normalising one record, adding two. */
module Usage {
  import opened Common

  datatype AIUsage = AIUsage(
    inputTokens: Option<Num>,
    outputTokens: Option<Num>,
    reasoningTokens: Option<Num>,
    cachedInputTokens: Option<Num>,
    totalTokens: Option<Num>)

  const EMPTY := AIUsage(None, None, None, None, None)

  /** A finite non-negative count, rounded down; anything else is dropped. */
  function Safe(v: Option<Num>): (r: Option<Num>) {
    match v
    case Some(Finite(x)) => if x >= 0.0 then Some(Finite(x.Floor as real)) else None
    case _ => None
  }

  function NumberOr0(v: Option<Num>): (r: real) {
    match v
    case Some(Finite(x)) => x
    case _ => 0.0
  }

  function NormalizeUsage(u: AIUsage): (r: AIUsage) {
    var input, output, reasoning := Safe(u.inputTokens), Safe(u.outputTokens), Safe(u.reasoningTokens);
    var given := Safe(u.totalTokens);
    var total :=
      if given.Some? then given
      else if input.Some? || output.Some? || reasoning.Some?
      then Some(Finite(NumberOr0(input) + NumberOr0(output) + NumberOr0(reasoning)))
      else None;
    AIUsage(input, output, reasoning, Safe(u.cachedInputTokens), total)
  }

  /** The sum of those of the two values that are finite numbers. */
  function Plus(a: Option<Num>, b: Option<Num>): (r: Option<Num>) {
    match (a, b)
    case (Some(Finite(x)), Some(Finite(y))) => Some(Finite(x + y))
    case (Some(Finite(x)), _) => a
    case (_, Some(Finite(y))) => b
    case _ => None
  }

  function PlusEach(a: AIUsage, b: AIUsage): (r: AIUsage) {
    AIUsage(
      Plus(a.inputTokens, b.inputTokens),
      Plus(a.outputTokens, b.outputTokens),
      Plus(a.reasoningTokens, b.reasoningTokens),
      Plus(a.cachedInputTokens, b.cachedInputTokens),
      Plus(a.totalTokens, b.totalTokens))
  }

  /** `addUsage(a, b)`; an absent record contributes nothing. */
  function AddUsage(a: AIUsage, b: Option<AIUsage>): (r: AIUsage) {
    NormalizeUsage(PlusEach(a, b.GetOr(EMPTY)))
  }

  /** A record is clean when every count in it is a natural number and a total is
      present as soon as a count that enters the total is. */
  predicate IsCount(v: Option<Num>) {
    v.None? || (v.value.Finite? && v.value.r >= 0.0 && v.value.r == v.value.r.Floor as real)
  }

  predicate Clean(u: AIUsage) {
    && IsCount(u.inputTokens) && IsCount(u.outputTokens) && IsCount(u.reasoningTokens)
    && IsCount(u.cachedInputTokens) && IsCount(u.totalTokens)
    && (u.inputTokens.Some? || u.outputTokens.Some? || u.reasoningTokens.Some? ==> u.totalTokens.Some?)
  }

  lemma SafeIsCount(v: Option<Num>)
    ensures IsCount(Safe(v))
    ensures IsCount(v) <==> Safe(v) == v
  {
    if v.Some? && v.value.Finite? && v.value.r >= 0.0 {
      var n := v.value.r.Floor;
      assert (n as real).Floor == n;
    }
  }

  lemma SumOfCountsIsCount(a: Option<Num>, b: Option<Num>)
    requires IsCount(a) && IsCount(b)
    ensures IsCount(Plus(a, b))
    ensures Plus(a, b).Some? <==> a.Some? || b.Some?
  {
    if a.Some? && b.Some? {
      var m, n := a.value.r.Floor, b.value.r.Floor;
      assert a.value.r + b.value.r == (m + n) as real;
      assert ((m + n) as real).Floor == m + n;
    }
  }

  /** Normalising always yields a clean record, and leaves exactly the clean ones alone:
      the clean records are the image of `normalizeUsage`, and it is idempotent. */
  lemma NormalizeFixesExactlyClean(u: AIUsage)
    ensures Clean(NormalizeUsage(u))
    ensures NormalizeUsage(u) == u <==> Clean(u)
  {
    hide Safe, IsCount;
    SafeIsCount(u.inputTokens);
    SafeIsCount(u.outputTokens);
    SafeIsCount(u.reasoningTokens);
    SafeIsCount(u.cachedInputTokens);
    SafeIsCount(u.totalTokens);
    ThreeCounts(Safe(u.inputTokens), Safe(u.outputTokens), Safe(u.reasoningTokens));
  }

  lemma ThreeCounts(a: Option<Num>, b: Option<Num>, c: Option<Num>)
    requires IsCount(a) && IsCount(b) && IsCount(c)
    ensures IsCount(Some(Finite(NumberOr0(a) + NumberOr0(b) + NumberOr0(c)))) && IsCount(None)
  {
    var k, m, n := NumberOr0(a).Floor, NumberOr0(b).Floor, NumberOr0(c).Floor;
    assert NumberOr0(a) + NumberOr0(b) + NumberOr0(c) == (k + m + n) as real;
    assert ((k + m + n) as real).Floor == k + m + n;
  }

  /** The empty record is a left unit for exactly the clean records. */
  lemma EmptyIsUnitIffClean(u: AIUsage)
    ensures AddUsage(EMPTY, Some(u)) == u <==> Clean(u)
    ensures AddUsage(EMPTY, Some(u)) == NormalizeUsage(u)
    ensures Clean(u) ==> AddUsage(u, Some(EMPTY)) == AddUsage(u, None) == u
  {
    NormalizeFixesExactlyClean(u);
    assert forall v: Num :: !v.Finite? ==> Safe(Some(v)) == None;
  }

  /** On clean records nothing is lost by normalising after each addition. */
  lemma AddCleanIsFieldwise(a: AIUsage, b: AIUsage)
    requires Clean(a) && Clean(b)
    ensures AddUsage(a, Some(b)) == PlusEach(a, b)
    ensures Clean(PlusEach(a, b))
  {
    SumOfCountsIsCount(a.inputTokens, b.inputTokens);
    SumOfCountsIsCount(a.outputTokens, b.outputTokens);
    SumOfCountsIsCount(a.reasoningTokens, b.reasoningTokens);
    SumOfCountsIsCount(a.cachedInputTokens, b.cachedInputTokens);
    SumOfCountsIsCount(a.totalTokens, b.totalTokens);
    NormalizeFixesExactlyClean(PlusEach(a, b));
  }

  lemma PlusLaws(a: Option<Num>, b: Option<Num>, c: Option<Num>)
    requires IsCount(a) && IsCount(b) && IsCount(c)
    ensures Plus(Plus(a, b), c) == Plus(a, Plus(b, c))
    ensures Plus(a, b) == Plus(b, a)
  {
  }

  lemma PlusEachLaws(a: AIUsage, b: AIUsage, c: AIUsage)
    requires Clean(a) && Clean(b) && Clean(c)
    ensures PlusEach(PlusEach(a, b), c) == PlusEach(a, PlusEach(b, c))
    ensures PlusEach(a, b) == PlusEach(b, a)
  {
    PlusLaws(a.inputTokens, b.inputTokens, c.inputTokens);
    PlusLaws(a.outputTokens, b.outputTokens, c.outputTokens);
    PlusLaws(a.reasoningTokens, b.reasoningTokens, c.reasoningTokens);
    PlusLaws(a.cachedInputTokens, b.cachedInputTokens, c.cachedInputTokens);
    PlusLaws(a.totalTokens, b.totalTokens, c.totalTokens);
  }

  /** The clean records form a commutative monoid under `addUsage`, with `{}` as unit. */
  lemma CleanUsageIsMonoid(a: AIUsage, b: AIUsage, c: AIUsage)
    requires Clean(a) && Clean(b) && Clean(c)
    ensures AddUsage(AddUsage(a, Some(b)), Some(c)) == AddUsage(a, Some(AddUsage(b, Some(c))))
    ensures AddUsage(a, Some(b)) == AddUsage(b, Some(a))
    ensures AddUsage(EMPTY, Some(a)) == a
  {
    AddCleanIsFieldwise(a, b);
    AddCleanIsFieldwise(b, a);
    AddCleanIsFieldwise(b, c);
    AddCleanIsFieldwise(PlusEach(a, b), c);
    AddCleanIsFieldwise(a, PlusEach(b, c));
    PlusEachLaws(a, b, c);
    EmptyIsUnitIffClean(a);
  }

  // ---- when grouping matters ----

  /** What `addUsage` makes of one field. */
  function AddField(x: Option<Num>, y: Option<Num>): (r: Option<Num>) {
    Safe(Plus(x, y))
  }

  predicate IsNumber(v: Option<Num>) {
    v.Some? && v.value.Finite?
  }

  /** The values x, y and z of one field give the same either way.  If no sum of two
      neighbours is negative, rounding down must take the same off in both orders, or leave a
      negative number in both.  If one is, it is dropped, and the value left over must be
      dropped as well, or be what the other order comes to.  If both are, the outer values
      must round to the same or both be dropped. */
  predicate FieldsAgree(x: Option<Num>, y: Option<Num>, z: Option<Num>) {
    var a, b, c := NumberOr0(x), NumberOr0(y), NumberOr0(z);
    var left, right := (a + b).Floor + c.Floor, a.Floor + (b + c).Floor;
    if a + b >= 0.0 && b + c >= 0.0 then left == right || (left < 0 && right < 0)
    else if b + c >= 0.0 then !IsNumber(z) || c < 0.0 || c.Floor == right
    else if a + b >= 0.0 then !IsNumber(x) || a < 0.0 || a.Floor == left
    else if IsNumber(x) && a >= 0.0 then IsNumber(z) && c.Floor == a.Floor
    else !IsNumber(z) || c < 0.0
  }

  lemma FloorOfSum(n: int, x: real)
    ensures (n as real + x).Floor == n + x.Floor
  {
  }

  lemma AddFieldMeans(x: Option<Num>, y: Option<Num>)
    ensures
      var sum := NumberOr0(x) + NumberOr0(y);
      AddField(x, y) ==
        if (IsNumber(x) || IsNumber(y)) && sum >= 0.0 then Some(Finite(sum.Floor as real)) else None
  {
  }

  lemma FieldsAgreeIff(x: Option<Num>, y: Option<Num>, z: Option<Num>)
    ensures AddField(AddField(x, y), z) == AddField(x, AddField(y, z)) <==> FieldsAgree(x, y, z)
  {
    hide AddField;
    AddFieldMeans(x, y);
    AddFieldMeans(y, z);
    AddFieldMeans(AddField(x, y), z);
    AddFieldMeans(x, AddField(y, z));
    var a, b, c := NumberOr0(x), NumberOr0(y), NumberOr0(z);
    FloorOfSum((a + b).Floor, c);
    FloorOfSum((b + c).Floor, a);
  }

  /** The total made up from counts: their sum, when there is any. */
  function PartsSum(input: Option<Num>, output: Option<Num>, reasoning: Option<Num>): (r: Option<Num>) {
    if input.Some? || output.Some? || reasoning.Some?
    then Some(Finite(NumberOr0(input) + NumberOr0(output) + NumberOr0(reasoning)))
    else None
  }

  function OrElse(a: Option<Num>, b: Option<Num>): (r: Option<Num>) {
    if a.Some? then a else b
  }

  /** The total two records add up to: what their totals add up to, unless that is nothing or
      negative; then what the sums of their counts do. */
  function PairTotal(a: AIUsage, b: AIUsage): (r: Option<Num>) {
    OrElse(AddField(a.totalTokens, b.totalTokens),
      PartsSum(AddField(a.inputTokens, b.inputTokens), AddField(a.outputTokens, b.outputTokens),
        AddField(a.reasoningTokens, b.reasoningTokens)))
  }

  /** The outer totals, added to those of the other two records, come to the same, where the
      counts of all three stand in for a sum that is nothing or negative. */
  predicate TotalsMeet(a: AIUsage, b: AIUsage, c: AIUsage) {
    var whole := PartsSum(
      AddField(AddField(a.inputTokens, b.inputTokens), c.inputTokens),
      AddField(AddField(a.outputTokens, b.outputTokens), c.outputTokens),
      AddField(AddField(a.reasoningTokens, b.reasoningTokens), c.reasoningTokens));
    OrElse(AddField(PairTotal(a, b), c.totalTokens), whole) == OrElse(AddField(a.totalTokens, PairTotal(b, c)), whole)
  }

  lemma AddIsFieldwise(a: AIUsage, b: AIUsage)
    ensures AddUsage(a, Some(b)) == AIUsage(
        AddField(a.inputTokens, b.inputTokens), AddField(a.outputTokens, b.outputTokens),
        AddField(a.reasoningTokens, b.reasoningTokens), AddField(a.cachedInputTokens, b.cachedInputTokens), PairTotal(a, b))
  {
    hide Safe, Plus;
  }

  /** For all records: grouping does not matter exactly when it does not for each of the four
      counts, and the totals meet. */
  lemma AddUsageIsAssociativeIff(a: AIUsage, b: AIUsage, c: AIUsage)
    ensures
      AddUsage(AddUsage(a, Some(b)), Some(c)) == AddUsage(a, Some(AddUsage(b, Some(c)))) <==>
      && FieldsAgree(a.inputTokens, b.inputTokens, c.inputTokens)
      && FieldsAgree(a.outputTokens, b.outputTokens, c.outputTokens)
      && FieldsAgree(a.reasoningTokens, b.reasoningTokens, c.reasoningTokens)
      && FieldsAgree(a.cachedInputTokens, b.cachedInputTokens, c.cachedInputTokens)
      && TotalsMeet(a, b, c)
  {
    hide AddUsage, AddField, FieldsAgree;
    AddIsFieldwise(a, b);
    AddIsFieldwise(b, c);
    AddIsFieldwise(AddUsage(a, Some(b)), c);
    AddIsFieldwise(a, AddUsage(b, Some(c)));
    FieldsAgreeIff(a.inputTokens, b.inputTokens, c.inputTokens);
    FieldsAgreeIff(a.outputTokens, b.outputTokens, c.outputTokens);
    FieldsAgreeIff(a.reasoningTokens, b.reasoningTokens, c.reasoningTokens);
    FieldsAgreeIff(a.cachedInputTokens, b.cachedInputTokens, c.cachedInputTokens);
  }

  /** Every value reported is a natural number; a total may be missing. */
  predicate AllCounts(u: AIUsage) {
    && IsCount(u.inputTokens) && IsCount(u.outputTokens) && IsCount(u.reasoningTokens)
    && IsCount(u.cachedInputTokens) && IsCount(u.totalTokens)
  }

  /** Some count that enters the total is reported. */
  predicate HasParts(u: AIUsage) {
    u.inputTokens.Some? || u.outputTokens.Some? || u.reasoningTokens.Some?
  }

  /** The total that the counts of a record add up to. */
  function PartsTotal(u: AIUsage): (r: real) {
    NumberOr0(u.inputTokens) + NumberOr0(u.outputTokens) + NumberOr0(u.reasoningTokens)
  }

  /** The total of a sum of counts. */
  function SumTotal(u: AIUsage, v: AIUsage): (r: Option<Num>) {
    if u.totalTokens.Some? || v.totalTokens.Some? then Plus(u.totalTokens, v.totalTokens)
    else if HasParts(u) || HasParts(v) then Some(Finite(PartsTotal(u) + PartsTotal(v)))
    else None
  }

  /** Adding counts adds field by field, and makes up a total only when neither has one. */
  lemma AddCounts(u: AIUsage, v: AIUsage)
    requires AllCounts(u) && AllCounts(v)
    ensures
      var sum := AddUsage(u, Some(v));
      && AllCounts(sum)
      && HasParts(sum) == (HasParts(u) || HasParts(v))
      && PartsTotal(sum) == PartsTotal(u) + PartsTotal(v)
      && sum == PlusEach(u, v).(totalTokens := SumTotal(u, v))
  {
    hide Safe, Plus, IsCount;
    var w := PlusEach(u, v);
    SumOfCountsIsCount(u.inputTokens, v.inputTokens);
    SumOfCountsIsCount(u.outputTokens, v.outputTokens);
    SumOfCountsIsCount(u.reasoningTokens, v.reasoningTokens);
    SumOfCountsIsCount(u.cachedInputTokens, v.cachedInputTokens);
    SumOfCountsIsCount(u.totalTokens, v.totalTokens);
    SafeIsCount(w.inputTokens);
    SafeIsCount(w.outputTokens);
    SafeIsCount(w.reasoningTokens);
    SafeIsCount(w.cachedInputTokens);
    SafeIsCount(w.totalTokens);
    ThreeCounts(w.inputTokens, w.outputTokens, w.reasoningTokens);
    PlusAdds(u.inputTokens, v.inputTokens);
    PlusAdds(u.outputTokens, v.outputTokens);
    PlusAdds(u.reasoningTokens, v.reasoningTokens);
  }

  lemma PlusAdds(a: Option<Num>, b: Option<Num>)
    ensures NumberOr0(Plus(a, b)) == NumberOr0(a) + NumberOr0(b)
  {
  }

  /** The two groupings of three records give one total: the middle one has a total; or both
      outer ones have; or one outer one has, and the other two records report nothing that
      a total would be made up from; or none has, and the two outer ones add up to the same,
      which does not matter when the middle one and one of them report no such count. */
  predicate TotalsAgree(a: AIUsage, b: AIUsage, c: AIUsage) {
    if b.totalTokens.Some? then true
    else match (a.totalTokens, c.totalTokens)
      case (Some(_), Some(_)) => true
      case (Some(_), None) => PartsTotal(b) + PartsTotal(c) == 0.0
      case (None, Some(_)) => PartsTotal(a) + PartsTotal(b) == 0.0
      case (None, None) => HasParts(b) || (HasParts(a) && HasParts(c)) ==> PartsTotal(a) == PartsTotal(c)
  }

  /** For records of natural numbers it comes down to the totals, and to four plain cases. */
  lemma AddCountsIsAssociativeIff(a: AIUsage, b: AIUsage, c: AIUsage)
    requires AllCounts(a) && AllCounts(b) && AllCounts(c)
    ensures
      var left, right := AddUsage(AddUsage(a, Some(b)), Some(c)), AddUsage(a, Some(AddUsage(b, Some(c))));
      && (left == right <==> TotalsAgree(a, b, c))
      && left.(totalTokens := None) == right.(totalTokens := None)
  {
    hide AddUsage, AllCounts, HasParts, PartsTotal;
    var ab, bc := AddUsage(a, Some(b)), AddUsage(b, Some(c));
    AddCounts(a, b);
    AddCounts(b, c);
    AddCounts(ab, c);
    AddCounts(a, bc);
    CountsGroup(a, b, c);
    TotalsGroup(a, b, c, ab, bc, AddUsage(ab, Some(c)), AddUsage(a, Some(bc)));
  }

  lemma CountsGroup(a: AIUsage, b: AIUsage, c: AIUsage)
    requires AllCounts(a) && AllCounts(b) && AllCounts(c)
    ensures Plus(Plus(a.inputTokens, b.inputTokens), c.inputTokens) == Plus(a.inputTokens, Plus(b.inputTokens, c.inputTokens))
    ensures Plus(Plus(a.outputTokens, b.outputTokens), c.outputTokens)
         == Plus(a.outputTokens, Plus(b.outputTokens, c.outputTokens))
    ensures Plus(Plus(a.reasoningTokens, b.reasoningTokens), c.reasoningTokens)
         == Plus(a.reasoningTokens, Plus(b.reasoningTokens, c.reasoningTokens))
    ensures Plus(Plus(a.cachedInputTokens, b.cachedInputTokens), c.cachedInputTokens)
         == Plus(a.cachedInputTokens, Plus(b.cachedInputTokens, c.cachedInputTokens))
  {
    PlusLaws(a.inputTokens, b.inputTokens, c.inputTokens);
    PlusLaws(a.outputTokens, b.outputTokens, c.outputTokens);
    PlusLaws(a.reasoningTokens, b.reasoningTokens, c.reasoningTokens);
    PlusLaws(a.cachedInputTokens, b.cachedInputTokens, c.cachedInputTokens);
  }

  lemma TotalsGroup(a: AIUsage, b: AIUsage, c: AIUsage, ab: AIUsage, bc: AIUsage, left: AIUsage, right: AIUsage)
    requires AllCounts(a) && AllCounts(b) && AllCounts(c)
    requires HasParts(ab) == (HasParts(a) || HasParts(b)) && PartsTotal(ab) == PartsTotal(a) + PartsTotal(b)
    requires HasParts(bc) == (HasParts(b) || HasParts(c)) && PartsTotal(bc) == PartsTotal(b) + PartsTotal(c)
    requires ab.totalTokens == SumTotal(a, b) && bc.totalTokens == SumTotal(b, c)
    requires left.totalTokens == SumTotal(ab, c) && right.totalTokens == SumTotal(a, bc)
    ensures left.totalTokens == right.totalTokens <==> TotalsAgree(a, b, c)
  {
    NoPartsNoTotal(a);
    NoPartsNoTotal(b);
    NoPartsNoTotal(c);
    hide HasParts, PartsTotal;
  }

  lemma NoPartsNoTotal(u: AIUsage)
    ensures !HasParts(u) ==> PartsTotal(u) == 0.0
  {
  }

  /** An instance: a total reported by one record hides the counts of one that reported none. */
  lemma AddUsageIsNotAssociative()
    ensures
      var total5 := EMPTY.(totalTokens := Some(Finite(5.0)));
      var input3 := EMPTY.(inputTokens := Some(Finite(3.0)));
      && AddUsage(AddUsage(total5, Some(input3)), Some(EMPTY)).totalTokens == Some(Finite(5.0))
      && AddUsage(total5, Some(AddUsage(input3, Some(EMPTY)))).totalTokens == Some(Finite(8.0))
  {
    assert (5 as real).Floor == 5 && (3 as real).Floor == 3 && (8 as real).Floor == 8;
  }

  /** Usage added up from the left over a run. */
  function FoldUsage(items: seq<Option<AIUsage>>): (r: AIUsage) {
    if items == [] then EMPTY
    else AddUsage(FoldUsage(items[..|items| - 1]), items[|items| - 1])
  }

  /** A running total is always clean. */
  lemma FoldIsClean(items: seq<Option<AIUsage>>)
    ensures Clean(FoldUsage(items))
    ensures NormalizeUsage(FoldUsage(items)) == FoldUsage(items)
  {
    NormalizeFixesExactlyClean(FoldUsage(items));
    if items != [] {
      NormalizeFixesExactlyClean(
        PlusEach(FoldUsage(items[..|items| - 1]), items[|items| - 1].GetOr(EMPTY)));
    }
  }

  /** When every reported record is clean the running total of a run split in two is the
      sum of the totals of its halves. */
  lemma {:induction false} FoldSplits(a: seq<Option<AIUsage>>, b: seq<Option<AIUsage>>)
    requires forall u :: u in a + b && u.Some? ==> Clean(u.value)
    ensures FoldUsage(a + b) == AddUsage(FoldUsage(a), Some(FoldUsage(b)))
  {
    FoldIsClean(a);
    FoldIsClean(b);
    EmptyIsUnitIffClean(FoldUsage(a));
    if b == [] {
      assert a + b == a;
    } else {
      var front, last := b[..|b| - 1], b[|b| - 1];
      assert (a + b)[..|a + b| - 1] == a + front;
      assert forall u :: u in a + front ==> u in a + b;
      assert last in a + b;
      FoldSplits(a, front);
      FoldIsClean(front);
      assert Clean(EMPTY);
      CleanUsageIsMonoid(FoldUsage(a), FoldUsage(front), last.GetOr(EMPTY));
    }
  }
}
