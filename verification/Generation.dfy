/** The stream collector of packages/agent/src/generation.ts: parts are forwarded to the
    consumer while being folded into a result; a model that cannot stream is made to look
    as if it could. */
module Generation {
  import opened Common
  import opened Usage
  import opened AgentLoopModel

  /** The stream parts; those the collector does not look at are all `OtherPart`. */
  datatype Part =
    | StartPart(modelId: string)
    | TextStart(id: string)
    | TextDelta(id: string, delta: string)
    | TextEnd(id: string)
    | ReasoningDelta(id: string, delta: string)
    | FinishStep(step: nat, usage: Option<AIUsage>, finishReason: FinishReason)
    | Finish(usage: Option<AIUsage>, finishReason: FinishReason)
    | OtherPart(json: string)

  /** What a model that does not stream answers. */
  datatype Response = Response(
    text: string, reasoningText: Option<string>, finishReason: FinishReason,
    usage: Option<AIUsage>, warnings: seq<string>)

  /** The parts a reader yields, and whether it then ends or fails. */
  datatype Source = Source(parts: seq<Part>, ending: Answer<()>)

  datatype Model = Streaming(source: Answer<Source>) | Plain(modelId: string, response: Answer<Response>)

  /** One call of `stream`: the callbacks, the model, and the number of parts after which
      the consumer has cancelled, if it does. */
  datatype Request = Request(
    onStart: Answer<()>, onFinish: Answer<()>, onError: Answer<()>,
    model: Model, cancelledAfter: Option<nat>)

  datatype Result = Result(
    text: string, reasoningText: Option<string>, usage: AIUsage,
    finishReason: FinishReason, warnings: seq<string>)

  datatype Promise = Pending | Fulfilled(result: Result) | Rejected(error: string)

  datatype StreamEnd = Closed | Errored(error: string) | Cancelled

  datatype Outcome = Outcome(parts: seq<Part>, result: Promise, end: StreamEnd)

  // ---- the fold ----

  /** The accumulators of the read loop. */
  datatype Collected = Collected(text: string, reasoning: string, usage: AIUsage, finishReason: FinishReason)

  const NOTHING := Collected("", "", EMPTY, Unknown)

  function Add(c: Collected, part: Part): (r: Collected) {
    match part
    case TextDelta(_, delta) => c.(text := c.text + delta)
    case ReasoningDelta(_, delta) => c.(reasoning := c.reasoning + delta)
    case FinishStep(_, usage, reason) => c.(usage := AddUsage(c.usage, usage), finishReason := reason)
    case Finish(usage, reason) => c.(usage := AddUsage(c.usage, usage), finishReason := reason)
    case _ => c
  }

  function Collect(parts: seq<Part>): (c: Collected) {
    if parts == [] then NOTHING else Add(Collect(parts[..|parts| - 1]), parts[|parts| - 1])
  }

  function ResultOf(c: Collected, warnings: seq<string>): (r: Result) {
    Result(c.text, if c.reasoning == "" then None else Some(c.reasoning), NormalizeUsage(c.usage), c.finishReason, warnings)
  }

  /** The parts a plain answer is turned into. */
  function Synthetic(modelId: string, r: Response): (parts: seq<Part>) {
    [StartPart(modelId), TextStart("text-0")]
    + (if r.text == "" then [] else [TextDelta("text-0", r.text)])
    + [TextEnd("text-0"), Finish(Some(NormalizeUsage(r.usage.GetOr(EMPTY))), r.finishReason)]
  }

  // ---- the whole call as a function ----

  /** Forwarding stops with an error at the first part the consumer no longer takes. */
  function Delivered(parts: seq<Part>, cancelledAfter: Option<nat>): (r: seq<Part>) {
    if cancelledAfter.Some? && cancelledAfter.value < |parts| then parts[..cancelledAfter.value] else parts
  }

  const STREAM_IS_CLOSED := "Invalid state: the stream is closed"

  /** The `try` block up to the completed result. */
  datatype Body = Body(parts: seq<Part>, completed: Answer<Result>)

  function StreamBody(source: Source, cancelledAfter: Option<nat>): (b: Body) {
    var delivered := Delivered(source.parts, cancelledAfter);
    if |delivered| < |source.parts| then Body(delivered, Throws(STREAM_IS_CLOSED))
    else if source.ending.Throws? then Body(delivered, Throws(source.ending.error))
    else Body(delivered, Answers(ResultOf(Collect(source.parts), [])))
  }

  function PlainBody(modelId: string, r: Response, cancelledAfter: Option<nat>): (b: Body) {
    var delivered := Delivered(Synthetic(modelId, r), cancelledAfter);
    if |delivered| < |Synthetic(modelId, r)| then Body(delivered, Throws(STREAM_IS_CLOSED))
    else Body(delivered, Answers(ResultOf(
                Collected(r.text, r.reasoningText.GetOr(""), NormalizeUsage(r.usage.GetOr(EMPTY)), r.finishReason),
                r.warnings)))
  }

  function TryBody(req: Request): (b: Body) {
    if req.onStart.Throws? then Body([], Throws(req.onStart.error))
    else match req.model
      case Streaming(Throws(e)) => Body([], Throws(e))
      case Streaming(Answers(source)) => StreamBody(source, req.cancelledAfter)
      case Plain(_, Throws(e)) => Body([], Throws(e))
      case Plain(id, Answers(r)) => PlainBody(id, r, req.cancelledAfter)
  }

  /** The `catch` block, for an error met while the result promise is `result`. */
  function Catch(req: Request, parts: seq<Part>, result: Promise, error: string): (o: Outcome) {
    var cancelled := req.cancelledAfter == Some(|parts|);
    match req.onError
    case Throws(e) => Outcome(parts, result, if cancelled then Cancelled else Errored(e))
    case Answers(_) =>
      Outcome(parts, if result.Pending? then Rejected(error) else result,
              if cancelled then Cancelled else Errored(error))
  }

  function StreamOutcome(req: Request): (o: Outcome) {
    var b := TryBody(req);
    match b.completed
    case Throws(e) => Catch(req, b.parts, Pending, e)
    case Answers(completed) =>
      if req.onFinish.Throws? then Catch(req, b.parts, Pending, req.onFinish.error)
      else if req.cancelledAfter == Some(|b.parts|) then Catch(req, b.parts, Fulfilled(completed), STREAM_IS_CLOSED)
      else Outcome(b.parts, Fulfilled(completed), Closed)
  }

  // ---- the call itself ----

  /** The target controller of the readable stream and the result promise. */
  class Target {
    const cancelledAfter: Option<nat>
    var parts: seq<Part>
    var result: Promise
    var end: Option<StreamEnd>

    constructor (cancelledAfter: Option<nat>)
      ensures this.cancelledAfter == cancelledAfter
      ensures parts == [] && result == Pending && end == None
    {
      this.cancelledAfter := cancelledAfter;
      parts, result, end := [], Pending, None;
    }

    predicate IsCancelled()
      reads this`parts
    {
      cancelledAfter == Some(|parts|)
    }

    method Enqueue(part: Part) returns (thrown: bool)
      modifies this`parts
      ensures thrown == old(IsCancelled())
      ensures parts == if thrown then old(parts) else old(parts) + [part]
    {
      if IsCancelled() { return true; }
      parts := parts + [part];
      return false;
    }

    method Resolve(r: Result)
      modifies this`result
      ensures result == if old(result).Pending? then Fulfilled(r) else old(result)
    {
      if result.Pending? { result := Fulfilled(r); }
    }

    method Reject(error: string)
      modifies this`result
      ensures result == if old(result).Pending? then Rejected(error) else old(result)
    {
      if result.Pending? { result := Rejected(error); }
    }
  }

  /** The read loop: each part is folded in, then forwarded. */
  method ReadLoop(source: Source, target: Target) returns (c: Collected, thrown: Option<string>)
    requires target.parts == []
    modifies target`parts
    ensures target.parts == Delivered(source.parts, target.cancelledAfter)
    ensures thrown.None? ==> c == Collect(source.parts) && target.parts == source.parts && source.ending.Answers?
    ensures thrown.Some? ==>
              if |target.parts| < |source.parts| then thrown.value == STREAM_IS_CLOSED
              else source.ending == Throws(thrown.value)
  {
    var text, reasoningText, usage, finishReason := "", "", EMPTY, Unknown;
    var k := 0;
    while k < |source.parts|
      invariant 0 <= k <= |source.parts|
      invariant target.parts == source.parts[..k]
      invariant target.cancelledAfter.Some? ==> k <= target.cancelledAfter.value
      invariant Collected(text, reasoningText, usage, finishReason) == Collect(source.parts[..k])
    {
      var part := source.parts[k];
      if part.TextDelta? { text := text + part.delta; }
      if part.ReasoningDelta? { reasoningText := reasoningText + part.delta; }
      if part.FinishStep? || part.Finish? {
        usage := AddUsage(usage, part.usage);
        finishReason := part.finishReason;
      }
      assert source.parts[..k + 1] == source.parts[..k] + [part];
      var refused := target.Enqueue(part);
      if refused { return NOTHING, Some(STREAM_IS_CLOSED); }
      k := k + 1;
    }
    assert source.parts[..k] == source.parts;
    if source.ending.Throws? { return NOTHING, Some(source.ending.error); }
    return Collected(text, reasoningText, usage, finishReason), None;
  }

  /** The synthetic parts of a plain answer, one by one. */
  method EnqueueAll(parts: seq<Part>, target: Target) returns (thrown: bool)
    requires target.parts == []
    modifies target`parts
    ensures target.parts == Delivered(parts, target.cancelledAfter)
    ensures thrown <==> |target.parts| < |parts|
  {
    var k := 0;
    while k < |parts|
      invariant 0 <= k <= |parts|
      invariant target.parts == parts[..k]
      invariant target.cancelledAfter.Some? ==> k <= target.cancelledAfter.value
    {
      thrown := target.Enqueue(parts[k]);
      if thrown { return; }
      k := k + 1;
    }
    return false;
  }

  /** The `try` block up to `completed`. */
  method TryStream(req: Request, target: Target) returns (completed: Answer<Result>)
    requires target.parts == [] && target.cancelledAfter == req.cancelledAfter
    modifies target`parts
    ensures Body(target.parts, completed) == TryBody(req)
  {
    if req.onStart.Throws? { return Throws(req.onStart.error); }
    match req.model {
      case Plain(modelId, response) =>
        if response.Throws? { return Throws(response.error); }
        var r := response.value;
        var usage := NormalizeUsage(r.usage.GetOr(EMPTY));
        var refused := EnqueueAll(Synthetic(modelId, r), target);
        if refused { return Throws(STREAM_IS_CLOSED); }
        return Answers(ResultOf(Collected(r.text, r.reasoningText.GetOr(""), usage, r.finishReason), r.warnings));
      case Streaming(source) =>
        if source.Throws? { return Throws(source.error); }
        var c, thrown := ReadLoop(source.value, target);
        if thrown.Some? { return Throws(thrown.value); }
        return Answers(ResultOf(c, []));
    }
  }

  /** `start(target)` of the stream returned by `stream(options)`. */
  method RunStream(req: Request) returns (out: Outcome)
    ensures out == StreamOutcome(req)
  {
    var target := new Target(req.cancelledAfter);
    var error: Option<string> := None;
    var completed := TryStream(req, target);
    match completed {
      case Throws(e) => error := Some(e);
      case Answers(r) =>
        if req.onFinish.Throws? {
          error := Some(req.onFinish.error);
        } else {
          target.Resolve(r);
          if target.IsCancelled() {
            error := Some(STREAM_IS_CLOSED);
          } else {
            target.end := Some(Closed);
          }
        }
    }
    if error.Some? {
      if req.onError.Throws? {
        // start() itself rejects: the stream is errored, the result promise is left alone
        target.end := Some(if target.IsCancelled() then Cancelled else Errored(req.onError.error));
      } else {
        target.Reject(error.value);
        target.end := Some(if target.IsCancelled() then Cancelled else Errored(error.value));
      }
    }
    return Outcome(target.parts, target.result, target.end.value);
  }

  // ---- what a consumer can rely on ----

  function TextDeltas(parts: seq<Part>): (r: seq<string>) {
    if parts == [] then []
    else
      var front, p := TextDeltas(parts[..|parts| - 1]), parts[|parts| - 1];
      if p.TextDelta? then front + [p.delta] else front
  }

  function ReasoningDeltas(parts: seq<Part>): (r: seq<string>) {
    if parts == [] then []
    else
      var front, p := ReasoningDeltas(parts[..|parts| - 1]), parts[|parts| - 1];
      if p.ReasoningDelta? then front + [p.delta] else front
  }

  function FinishUsages(parts: seq<Part>): (r: seq<Option<AIUsage>>) {
    if parts == [] then []
    else
      var front, p := FinishUsages(parts[..|parts| - 1]), parts[|parts| - 1];
      if p.FinishStep? || p.Finish? then front + [p.usage] else front
  }

  predicate Finishes(p: Part) {
    p.FinishStep? || p.Finish?
  }

  predicate LastFinish(parts: seq<Part>, i: nat)
    requires i < |parts|
  {
    Finishes(parts[i]) && forall j :: i < j < |parts| ==> !Finishes(parts[j])
  }

  /** The fold is what it should be: the text deltas joined, the reasoning deltas joined,
      the usages of the finishing parts added up, the reason of the last finishing part. */
  lemma {:induction false} CollectMeans(parts: seq<Part>)
    ensures
      var c := Collect(parts);
      && c.text == Concat(TextDeltas(parts))
      && c.reasoning == Concat(ReasoningDeltas(parts))
      && c.usage == FoldUsage(FinishUsages(parts))
      && ((forall i :: 0 <= i < |parts| ==> !Finishes(parts[i])) ==> c.finishReason == Unknown)
      && (forall i :: 0 <= i < |parts| && LastFinish(parts, i) ==> c.finishReason == parts[i].finishReason)
  {
    hide Collect, Concat, TextDeltas, ReasoningDeltas, FinishUsages, FoldUsage;
    CollectedText(parts);
    CollectedUsage(parts);
    CollectedReason(parts);
  }

  lemma {:induction false} CollectedText(parts: seq<Part>)
    ensures Collect(parts).text == Concat(TextDeltas(parts))
    ensures Collect(parts).reasoning == Concat(ReasoningDeltas(parts))
  {
    if parts != [] {
      hide Concat, FoldUsage, AddUsage;
      var front, last := parts[..|parts| - 1], parts[|parts| - 1];
      CollectedText(front);
      if last.TextDelta? { ConcatSnoc(TextDeltas(front), last.delta); }
      if last.ReasoningDelta? { ConcatSnoc(ReasoningDeltas(front), last.delta); }
    }
  }

  lemma {:induction false} CollectedUsage(parts: seq<Part>)
    ensures Collect(parts).usage == FoldUsage(FinishUsages(parts))
  {
    if parts != [] {
      hide FoldUsage, AddUsage;
      var front, last := parts[..|parts| - 1], parts[|parts| - 1];
      CollectedUsage(front);
      if Finishes(last) { FoldSnoc(FinishUsages(front), last.usage); }
    } else {
      assert FinishUsages(parts) == [];
    }
  }

  lemma {:induction false} CollectedReason(parts: seq<Part>)
    ensures (forall i :: 0 <= i < |parts| ==> !Finishes(parts[i])) ==> Collect(parts).finishReason == Unknown
    ensures forall i :: 0 <= i < |parts| && LastFinish(parts, i) ==> Collect(parts).finishReason == parts[i].finishReason
  {
    if parts == [] {
      assert Collect(parts) == NOTHING;
    } else {
      var front, last := parts[..|parts| - 1], parts[|parts| - 1];
      ReasonOfLast(parts);
      hide Collect, Finishes;
      CollectedReason(front);
      assert forall i :: 0 <= i < |front| ==> front[i] == parts[i];
      assert !Finishes(last) ==> forall i :: 0 <= i < |front| && LastFinish(parts, i) ==> LastFinish(front, i);
    }
  }

  lemma ReasonOfLast(parts: seq<Part>)
    requires parts != []
    ensures
      var front, last := parts[..|parts| - 1], parts[|parts| - 1];
      Collect(parts).finishReason == if Finishes(last) then last.finishReason else Collect(front).finishReason
  {
    hide AddUsage;
  }

  lemma ConcatSnoc(parts: seq<string>, s: string)
    ensures Concat(parts + [s]) == Concat(parts) + s
  {
    assert (parts + [s])[..|parts|] == parts;
  }

  lemma FoldSnoc(items: seq<Option<AIUsage>>, u: Option<AIUsage>)
    ensures FoldUsage(items + [u]) == AddUsage(FoldUsage(items), u)
  {
    assert (items + [u])[..|items|] == items;
  }

  /** The parts the model offers the consumer, whichever way it works. */
  function Offered(req: Request): (parts: seq<Part>) {
    match req.model
    case Streaming(Answers(source)) => source.parts
    case Plain(id, Answers(r)) => Synthetic(id, r)
    case _ => []
  }

  /** What is enqueued for the consumer is a prefix of what the model offers, in order, and
      all of it whenever a result is delivered; the stream closes only with a delivered
      result.  A stream that ends in an error or is cancelled drops what is still queued. */
  lemma ForwardsInOrder(req: Request)
    ensures
      var o := StreamOutcome(req);
      && o.parts <= Offered(req)
      && (o.result.Fulfilled? ==> o.parts == Offered(req))
      && (o.end == Closed ==> o.result.Fulfilled?)
  {
    hide Synthetic, Collect, ResultOf;
  }

  /** On the streaming path the result is the fold of exactly the parts enqueued. */
  lemma StreamedResultIsFoldOfParts(req: Request)
    requires req.model.Streaming?
    ensures
      var o := StreamOutcome(req);
      o.result.Fulfilled? ==>
        && o.result.result.text == Concat(TextDeltas(o.parts))
        && o.result.result.reasoningText.GetOr("") == Concat(ReasoningDeltas(o.parts))
        && o.result.result.usage == FoldUsage(FinishUsages(o.parts))
        && o.result.result.finishReason == Collect(o.parts).finishReason
  {
    hide Collect, NormalizeUsage, TextDeltas, ReasoningDeltas, FinishUsages;
    var o := StreamOutcome(req);
    if o.result.Fulfilled? {
      ForwardsInOrder(req);
      CollectMeans(o.parts);
      FoldIsClean(FinishUsages(o.parts));
    }
  }

  lemma CollectSynthetic(modelId: string, r: Response)
    ensures
      Collect(Synthetic(modelId, r)) ==
      Collected(r.text, "", NormalizeUsage(r.usage.GetOr(EMPTY)), r.finishReason)
  {
    hide NormalizeUsage, AddUsage, Collect;
    var usage := NormalizeUsage(r.usage.GetOr(EMPTY));
    var head := [StartPart(modelId), TextStart("text-0")];
    var delta := TextDelta("text-0", r.text);
    CollectPair(NOTHING, [], StartPart(modelId), TextStart("text-0"));
    assert [] + head == head;
    CollectPair(NOTHING, head, delta, TextEnd("text-0"));
    CollectPair(NOTHING, head, TextEnd("text-0"), Finish(Some(usage), r.finishReason));
    CollectPair(NOTHING, head + [delta], TextEnd("text-0"), Finish(Some(usage), r.finishReason));
    NormalizeFixesExactlyClean(r.usage.GetOr(EMPTY));
    EmptyIsUnitIffClean(usage);
    if r.text == "" {
      assert Synthetic(modelId, r) == head + [TextEnd("text-0"), Finish(Some(usage), r.finishReason)];
    } else {
      assert Synthetic(modelId, r) == (head + [delta]) + [TextEnd("text-0"), Finish(Some(usage), r.finishReason)];
    }
  }

  /** Two more parts, folded one after the other. */
  lemma CollectPair(start: Collected, parts: seq<Part>, p: Part, q: Part)
    ensures Collect([]) == NOTHING
    ensures Collect(parts + [p]) == Add(Collect(parts), p)
    ensures Collect(parts + [p, q]) == Add(Add(Collect(parts), p), q)
  {
    assert (parts + [p])[..|parts|] == parts;
    assert (parts + [p, q])[..|parts| + 1] == parts + [p];
  }

  /** A model that cannot stream looks the same to a consumer: folding the synthetic parts
      gives the text, usage and finish reason of the returned result.  The reasoning is the
      exception: it agrees exactly when there is none. */
  lemma PlainLooksStreamed(req: Request)
    requires req.model.Plain?
    ensures
      var o := StreamOutcome(req);
      o.result.Fulfilled? ==>
        var seen := ResultOf(Collect(o.parts), o.result.result.warnings);
        && seen.text == o.result.result.text
        && seen.usage == o.result.result.usage
        && seen.finishReason == o.result.result.finishReason
        && (seen == o.result.result <==> req.model.response.value.reasoningText.GetOr("") == "")
  {
    hide Collect, NormalizeUsage, Synthetic;
    var o := StreamOutcome(req);
    if o.result.Fulfilled? {
      ForwardsInOrder(req);
      CollectSynthetic(req.model.modelId, req.model.response.value);
    }
  }

  /** Calling the model failed, or reading its stream did. */
  predicate ModelFails(model: Model) {
    match model
    case Plain(_, response) => response.Throws?
    case Streaming(Throws(_)) => true
    case Streaming(Answers(source)) => source.ending.Throws?
  }

  /** A callback before the result threw, or the model failed, or the consumer cancelled
      before the last part on offer. */
  predicate FailsEarly(req: Request) {
    || req.onStart.Throws? || req.onFinish.Throws? || ModelFails(req.model)
    || (req.cancelledAfter.Some? && req.cancelledAfter.value < |Offered(req)|)
  }

  /** The body of the call throws exactly for the reasons a caller can name beforehand. */
  lemma BodyThrowsIff(req: Request)
    ensures TryBody(req).completed.Throws? || req.onFinish.Throws? <==> FailsEarly(req)
    ensures TryBody(req).completed.Answers? ==> TryBody(req).parts == Offered(req)
  {
    hide Synthetic, Collect, ResultOf, NormalizeUsage;
  }

  /** The result promise settles on every call except exactly those that fail early with an
      `onError` that throws: those leave it pending for ever.  It is fulfilled exactly when
      nothing fails early. */
  lemma ResultSettlesUnlessOnErrorThrows(req: Request)
    ensures
      var o := StreamOutcome(req);
      && (o.result.Pending? <==> FailsEarly(req) && req.onError.Throws?)
      && (o.result.Rejected? <==> FailsEarly(req) && req.onError.Answers?)
      && (o.result.Fulfilled? <==> !FailsEarly(req))
  {
    hide TryBody, FailsEarly;
    BodyThrowsIff(req);
  }

  // ---- which parts, which error, which result ----

  /** The consumer has cancelled before the last part on offer. */
  predicate CancelsEarly(req: Request) {
    req.cancelledAfter.Some? && req.cancelledAfter.value < |Offered(req)|
  }

  /** Exactly the parts on offer are enqueued, up to a cancellation; none if `onStart` throws. */
  lemma EnqueuesExactly(req: Request)
    ensures StreamOutcome(req).parts ==
      if req.onStart.Throws? then []
      else if CancelsEarly(req) then Offered(req)[..req.cancelledAfter.value]
      else Offered(req)
  {
    hide Synthetic, Collect, ResultOf, NormalizeUsage;
  }

  /** `error` is the first thing that goes wrong before the result. */
  predicate IsFirstError(req: Request, error: string) {
    if req.onStart.Throws? then error == req.onStart.error
    else if req.model.Plain? && req.model.response.Throws? then error == req.model.response.error
    else if req.model.Streaming? && req.model.source.Throws? then error == req.model.source.error
    else if CancelsEarly(req) then error == "Invalid state: the stream is closed"
    else if req.model.Streaming? && req.model.source.value.ending.Throws? then error == req.model.source.value.ending.error
    else req.onFinish == Throws(error)
  }

  /** A call that fails early rejects its result with the first error, and ends the stream
      with it or with the error of `onError`, unless the consumer has cancelled by then. */
  lemma FailsWithFirstError(req: Request)
    requires FailsEarly(req)
    ensures
      var o := StreamOutcome(req);
      && (req.onError.Answers? ==> o.result.Rejected? && IsFirstError(req, o.result.error))
      && (o.end.Cancelled? <==> req.cancelledAfter == Some(|o.parts|))
      && (o.end.Errored? ==> if req.onError.Throws? then o.end.error == req.onError.error else IsFirstError(req, o.end.error))
      && !o.end.Closed?
  {
    hide Synthetic, Collect, ResultOf, NormalizeUsage;
  }

  /** A call that does not fail early closes its stream, unless the consumer cancelled at the
      very end. */
  lemma ClosesUnlessCancelled(req: Request)
    requires !FailsEarly(req)
    ensures StreamOutcome(req).end == if req.cancelledAfter == Some(|Offered(req)|) then Cancelled else Closed
  {
    hide Synthetic, Collect, ResultOf, NormalizeUsage;
  }

  /** A model that cannot stream returns its response: text, reasoning if there is any,
      normalised usage, reason and warnings; and offers it as start, text and finish. */
  lemma PlainReturnsResponse(req: Request)
    requires req.model.Plain? && req.model.response.Answers? && !FailsEarly(req)
    ensures
      var r, o := req.model.response.value, StreamOutcome(req);
      var usage := NormalizeUsage(r.usage.GetOr(EMPTY));
      && o.result == Fulfilled(Result(
           r.text, if r.reasoningText == Some("") then None else r.reasoningText, usage, r.finishReason, r.warnings))
      && |o.parts| == (if r.text == "" then 4 else 5)
      && o.parts[0] == StartPart(req.model.modelId) && o.parts[1] == TextStart("text-0")
      && (r.text != "" ==> o.parts[2] == TextDelta("text-0", r.text))
      && o.parts[|o.parts| - 2] == TextEnd("text-0") && o.parts[|o.parts| - 1] == Finish(Some(usage), r.finishReason)
  {
    hide NormalizeUsage, Collect;
    BodyThrowsIff(req);
    NormalizeFixesExactlyClean(req.model.response.value.usage.GetOr(EMPTY));
    NormalizeFixesExactlyClean(NormalizeUsage(req.model.response.value.usage.GetOr(EMPTY)));
  }

  /** A streamed result has no warnings, and its reasoning is absent when there is none. */
  lemma StreamedExtras(req: Request)
    requires req.model.Streaming? && !FailsEarly(req)
    ensures
      var o := StreamOutcome(req);
      o.result.Fulfilled? && o.result.result.warnings == [] && o.result.result.reasoningText != Some("")
  {
    hide NormalizeUsage, Collect, Synthetic;
  }
}
