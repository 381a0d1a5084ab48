/** Installing and releasing the canvas guard
    (apps/dashboard/lib/canvas-max-size-guard.ts:11-14, 40-125): the patched prototype
    properties, what is saved of the originals, and the count of installs. */
module CanvasInstall {
  import opened Common

  /** A property descriptor: the browser's own, or the guard's over another one. */
  datatype Accessor = Native(id: int, hasGet: bool, hasSet: bool) | Guarded(base: Accessor)

  datatype Transform = NativeTransform(id: int) | Wrapped(base: Transform)

  datatype Prototypes = Prototypes(width: Option<Accessor>, height: Option<Accessor>, setTransform: Transform)

  predicate Patchable(desc: Option<Accessor>) {
    match desc
    case None => false
    case Some(Guarded(_)) => true
    case Some(Native(_, hasGet, hasSet)) => hasGet && hasSet
  }

  /** `patchCanvasDim`, where the descriptor allows it. */
  function PatchDim(desc: Option<Accessor>): (r: Option<Accessor>) {
    if Patchable(desc) then Some(Guarded(desc.value)) else desc
  }

  function Patch(p: Prototypes): (r: Prototypes) {
    Prototypes(PatchDim(p.width), PatchDim(p.height), Wrapped(p.setTransform))
  }

  /** The module's variables and the prototypes they act on. */
  datatype State = State(
    installCount: nat,
    widthDesc: Option<Accessor>,
    heightDesc: Option<Accessor>,
    originalSetTransform: Option<Transform>,
    protos: Prototypes)

  /** The two kinds of function an install returns; a handle may be called again and again. */
  datatype Handle = FirstHandle | LaterHandle

  datatype Op = Install | Release(handle: Handle)

  function Fresh(original: Prototypes): (s: State) {
    State(0, None, None, None, original)
  }

  function Restored(s: State): (p: Prototypes) {
    Prototypes(
      if s.widthDesc.Some? then s.widthDesc else s.protos.width,
      if s.heightDesc.Some? then s.heightDesc else s.protos.height,
      s.originalSetTransform.GetOr(s.protos.setTransform))
  }

  function Next(s: State, op: Op): (r: State) {
    match op
    case Install =>
      if s.installCount > 0 then s.(installCount := s.installCount + 1)
      else State(1, s.protos.width, s.protos.height, Some(s.protos.setTransform), Patch(s.protos))
    case Release(handle) =>
      var count := if s.installCount > 0 then s.installCount - 1 else 0;
      if handle == LaterHandle || count > 0 then s.(installCount := count)
      else State(0, None, None, None, Restored(s))
  }

  class CanvasGuard {
    var installCount: nat
    var widthDesc: Option<Accessor>
    var heightDesc: Option<Accessor>
    var originalSetTransform: Option<Transform>
    var width: Option<Accessor>
    var height: Option<Accessor>
    var setTransform: Transform

    function Now(): (s: State)
      reads this
    {
      State(installCount, widthDesc, heightDesc, originalSetTransform, Prototypes(width, height, setTransform))
    }

    constructor (original: Prototypes)
      ensures Now() == Fresh(original)
    {
      installCount := 0;
      widthDesc, heightDesc, originalSetTransform := None, None, None;
      width, height, setTransform := original.width, original.height, original.setTransform;
    }

    /** `installCanvasMaxSizeGuard`. */
    method InstallGuard() returns (handle: Handle)
      modifies this
      ensures Now() == Next(old(Now()), Install)
      ensures handle == if old(installCount) == 0 then FirstHandle else LaterHandle
    {
      installCount := installCount + 1;
      if installCount > 1 {
        return LaterHandle;
      }
      widthDesc := width;
      heightDesc := height;
      if Patchable(widthDesc) { width := Some(Guarded(widthDesc.value)); }
      if Patchable(heightDesc) { height := Some(Guarded(heightDesc.value)); }
      originalSetTransform := Some(setTransform);
      setTransform := Wrapped(setTransform);
      handle := FirstHandle;
    }

    /** Calling what an install returned. */
    method ReleaseGuard(handle: Handle)
      modifies this
      ensures Now() == Next(old(Now()), Release(handle))
    {
      installCount := if installCount > 0 then installCount - 1 else 0;
      if handle == LaterHandle || installCount > 0 {
        return;
      }
      if widthDesc.Some? { width := widthDesc; }
      if heightDesc.Some? { height := heightDesc; }
      if originalSetTransform.Some? { setTransform := originalSetTransform.value; }
      widthDesc, heightDesc, originalSetTransform := None, None, None;
    }
  }

  function Run(original: Prototypes, ops: seq<Op>): (s: State) {
    if ops == [] then Fresh(original) else Next(Run(original, ops[..|ops| - 1]), ops[|ops| - 1])
  }

  /** How many installs count as active after the given calls. */
  function Count(ops: seq<Op>): (n: nat) {
    if ops == [] then 0
    else
      var before := Count(ops[..|ops| - 1]);
      if ops[|ops| - 1].Install? then before + 1 else if before > 0 then before - 1 else 0
  }

  // ---- the layers of patches ----

  /** The originals under `depth` patches. */
  function Layers(original: Prototypes, depth: nat): (p: Prototypes) {
    if depth == 0 then original else Patch(Layers(original, depth - 1))
  }

  function TransformDepth(t: Transform): (n: nat) {
    match t
    case NativeTransform(_) => 0
    case Wrapped(base) => 1 + TransformDepth(base)
  }

  lemma {:induction false} LayersDepth(original: Prototypes, depth: nat)
    ensures TransformDepth(Layers(original, depth).setTransform) == depth + TransformDepth(original.setTransform)
  {
    if depth > 0 { LayersDepth(original, depth - 1); }
  }

  /** `leaks` patches can no longer come off; one more is on while something is saved. */
  predicate Tracks(original: Prototypes, s: State, leaks: nat) {
    var base := Layers(original, leaks);
    if s.originalSetTransform.Some? then
      && s.widthDesc == base.width && s.heightDesc == base.height
      && s.originalSetTransform == Some(base.setTransform) && s.protos == Patch(base)
    else
      s.widthDesc == None && s.heightDesc == None && s.protos == base && s.installCount == 0
  }

  /** The patches that an install buried: it found nothing counted, yet something saved. */
  function Leaks(original: Prototypes, ops: seq<Op>): (n: nat) {
    if ops == [] then 0
    else
      var front := ops[..|ops| - 1];
      var s := Run(original, front);
      var buries := ops[|ops| - 1].Install? && s.installCount == 0 && s.originalSetTransform.Some?;
      Leaks(original, front) + if buries then 1 else 0
  }

  lemma {:induction false} RunTracks(original: Prototypes, ops: seq<Op>)
    ensures Tracks(original, Run(original, ops), Leaks(original, ops))
    ensures Run(original, ops).installCount == Count(ops)
  {
    if ops != [] {
      var front, last := ops[..|ops| - 1], ops[|ops| - 1];
      RunTracks(original, front);
      TracksNext(original, Run(original, front), last, Leaks(original, front));
    }
  }

  lemma TracksNext(original: Prototypes, s: State, op: Op, leaks: nat)
    requires Tracks(original, s, leaks)
    ensures
      var buries := op.Install? && s.installCount == 0 && s.originalSetTransform.Some?;
      Tracks(original, Next(s, op), leaks + if buries then 1 else 0)
  {
  }

  /** The property has a getter and a setter. */
  predicate HasBoth(desc: Option<Accessor>) {
    desc.Some? && (desc.value.Guarded? || (desc.value.hasGet && desc.value.hasSet))
  }

  /** A property without a getter or a setter is never touched. */
  lemma OthersAreLeftAlone(original: Prototypes, ops: seq<Op>)
    ensures !HasBoth(original.width) ==> Run(original, ops).protos.width == original.width
    ensures !HasBoth(original.height) ==> Run(original, ops).protos.height == original.height
  {
    hide Run, Leaks;
    RunTracks(original, ops);
    LayersKeepOthers(original, Leaks(original, ops));
  }

  lemma {:induction false} LayersKeepOthers(original: Prototypes, depth: nat)
    ensures !HasBoth(original.width) ==> Layers(original, depth).width == original.width
    ensures !HasBoth(original.height) ==> Layers(original, depth).height == original.height
  {
    if depth > 0 { LayersKeepOthers(original, depth - 1); }
  }

  /** Whenever installs are counted, the setters in place are guards: over every property
      that has a getter and a setter, and over `setTransform`. */
  lemma PatchedWhileCounted(original: Prototypes, ops: seq<Op>)
    requires Count(ops) > 0
    ensures
      var protos := Run(original, ops).protos;
      && protos.setTransform.Wrapped?
      && (HasBoth(original.width) ==> protos.width.Some? && protos.width.value.Guarded?)
      && (HasBoth(original.height) ==> protos.height.Some? && protos.height.value.Guarded?)
  {
    hide Run, Leaks, Count;
    RunTracks(original, ops);
    PatchableLayers(original, Leaks(original, ops));
  }

  lemma {:induction false} PatchableLayers(original: Prototypes, depth: nat)
    ensures Patchable(Layers(original, depth).width) <==> Patchable(original.width)
    ensures Patchable(Layers(original, depth).height) <==> Patchable(original.height)
  {
    if depth > 0 { PatchableLayers(original, depth - 1); }
  }

  lemma BackIffNothingOn(original: Prototypes, ops: seq<Op>)
    ensures Run(original, ops).protos == original <==>
      Leaks(original, ops) == 0 && Run(original, ops).originalSetTransform.None?
  {
    hide Run, Leaks;
    RunTracks(original, ops);
    LayersDepth(original, Leaks(original, ops));
  }

  // ---- when the originals are back ----

  /** Call `i` is an install that finds no other counted, and so patches. */
  predicate Opens(ops: seq<Op>, i: nat)
    requires i < |ops|
  {
    ops[i].Install? && Count(ops[..i]) == 0
  }

  /** Call `i` is of a first handle and leaves no install counted. */
  predicate Closes(ops: seq<Op>, i: nat)
    requires i < |ops|
  {
    ops[i] == Release(FirstHandle) && Count(ops[..i]) <= 1
  }

  /** Nothing opens or closes after `i` and before `n`. */
  predicate QuietAfter(ops: seq<Op>, i: nat, n: nat)
    requires n <= |ops|
  {
    forall k :: i < k < n ==> !Opens(ops, k) && !Closes(ops, k)
  }

  /** After `i` and before `n` something closes before anything opens. */
  predicate ClosedAfter(ops: seq<Op>, i: nat, n: nat)
    requires n <= |ops|
  {
    exists k :: i < k < n && Closes(ops, k) && QuietAfter(ops, i, k)
  }

  ghost predicate Matches(original: Prototypes, ops: seq<Op>, n: nat)
    requires n <= |ops|
  {
    && (Run(original, ops[..n]).originalSetTransform.Some? <==>
         exists i :: 0 <= i < n && Opens(ops, i) && QuietAfter(ops, i, n))
    && (Leaks(original, ops[..n]) == 0 <==>
         forall i :: 0 <= i < n && Opens(ops, i) ==> QuietAfter(ops, i, n) || ClosedAfter(ops, i, n))
  }

  lemma {:induction false} RunMatches(original: Prototypes, ops: seq<Op>, n: nat)
    requires n <= |ops|
    ensures Matches(original, ops, n)
  {
    if n > 0 {
      hide Matches;
      RunMatches(original, ops, n - 1);
      MatchesNext(original, ops, n - 1);
    } else {
      assert ops[..0] == [];
    }
  }

  lemma QuietNext(ops: seq<Op>, i: nat, n: nat)
    requires i < n < |ops|
    ensures QuietAfter(ops, i, n + 1) <==> QuietAfter(ops, i, n) && !Opens(ops, n) && !Closes(ops, n)
    ensures ClosedAfter(ops, i, n + 1) <==> ClosedAfter(ops, i, n) || (QuietAfter(ops, i, n) && Closes(ops, n))
  {
    hide Opens, Closes;
  }

  lemma StepFacts(original: Prototypes, ops: seq<Op>, n: nat)
    requires n < |ops|
    ensures
      var s, next := Run(original, ops[..n]), Run(original, ops[..n + 1]);
      var on, onNext := s.originalSetTransform.Some?, next.originalSetTransform.Some?;
      && onNext == (Opens(ops, n) || (on && !Closes(ops, n)))
      && Leaks(original, ops[..n + 1]) == Leaks(original, ops[..n]) + if Opens(ops, n) && on then 1 else 0
  {
    assert ops[..n + 1][..n] == ops[..n];
    RunTracks(original, ops[..n]);
  }

  lemma MatchesNext(original: Prototypes, ops: seq<Op>, n: nat)
    requires n < |ops| && Matches(original, ops, n)
    ensures Matches(original, ops, n + 1)
  {
    hide Run, Leaks, Opens, Closes, QuietAfter, ClosedAfter;
    StepFacts(original, ops, n);
    OpensOrCloses(ops, n);
    QuietHere(ops, n);
    forall i | 0 <= i < n
      ensures QuietAfter(ops, i, n + 1) <==> QuietAfter(ops, i, n) && !Opens(ops, n) && !Closes(ops, n)
      ensures ClosedAfter(ops, i, n + 1) <==>
        ClosedAfter(ops, i, n) || (QuietAfter(ops, i, n) && Closes(ops, n))
      ensures !(QuietAfter(ops, i, n) && ClosedAfter(ops, i, n))
    {
      QuietNext(ops, i, n);
      QuietIsNotClosed(ops, i, n);
    }
  }

  lemma QuietHere(ops: seq<Op>, n: nat)
    requires n < |ops|
    ensures QuietAfter(ops, n, n + 1) && !ClosedAfter(ops, n, n + 1)
  {
  }

  lemma OpensOrCloses(ops: seq<Op>, n: nat)
    requires n < |ops|
    ensures !(Opens(ops, n) && Closes(ops, n))
  {
  }

  lemma QuietIsNotClosed(ops: seq<Op>, i: nat, n: nat)
    requires n <= |ops|
    ensures !(QuietAfter(ops, i, n) && ClosedAfter(ops, i, n))
  {
    hide Opens, Closes;
  }

  /** The original properties are in place exactly when every install that patched was
      followed, before the next such install, by a call of a first handle that left nothing
      counted. */
  lemma OriginalsBackIff(original: Prototypes, ops: seq<Op>)
    ensures Run(original, ops).protos == original <==>
      forall i :: 0 <= i < |ops| && Opens(ops, i) ==> ClosedAfter(ops, i, |ops|)
  {
    hide Run, Leaks, Opens, Closes, QuietAfter, ClosedAfter;
    assert ops[..|ops|] == ops;
    RunMatches(original, ops, |ops|);
    BackIffNothingOn(original, ops);
    forall i | 0 <= i < |ops| ensures !(QuietAfter(ops, i, |ops|) && ClosedAfter(ops, i, |ops|)) {
      QuietIsNotClosed(ops, i, |ops|);
    }
  }

  /** Two installs that patch with nothing that restores between them: however the run goes
      on, the originals never come back. */
  lemma BuriedForever(original: Prototypes, ops: seq<Op>, i: nat, k: nat)
    requires i < k < |ops| && Opens(ops, i) && Opens(ops, k)
    requires forall j :: i < j < k ==> !Closes(ops, j)
    ensures Run(original, ops).protos != original
  {
    hide Run, Opens, Closes;
    OriginalsBackIff(original, ops);
    if ClosedAfter(ops, i, |ops|) {
      var j :| i < j < |ops| && Closes(ops, j) && QuietAfter(ops, i, j);
      OpensOrCloses(ops, k);
    }
  }

  // ---- last in, first out ----

  /** Each release is of the handle that was installed last and is still out: the first
      handle exactly when it is the only one. */
  predicate LastInFirstOut(ops: seq<Op>) {
    forall i :: 0 <= i < |ops| && ops[i].Release? ==>
      Count(ops[..i]) > 0 && (ops[i].handle == FirstHandle <==> Count(ops[..i]) == 1)
  }

  /** Released that way, the originals are back each time the count is back to zero, and one
      patch is on whenever it is not. */
  lemma {:induction false} LastInFirstOutRestores(original: Prototypes, ops: seq<Op>)
    requires LastInFirstOut(ops)
    ensures Run(original, ops).protos == if Count(ops) == 0 then original else Patch(original)
    ensures Run(original, ops).installCount == Count(ops)
    ensures Run(original, ops).originalSetTransform.Some? <==> Count(ops) > 0
    ensures Leaks(original, ops) == 0
  {
    if ops != [] {
      var front := ops[..|ops| - 1];
      assert LastInFirstOut(front) by {
        forall i | 0 <= i < |front| ensures front[..i] == ops[..i] && front[i] == ops[i] {}
      }
      LastInFirstOutRestores(original, front);
      RunTracks(original, front);
    }
  }

  /** Released in the other order the guard stays on with nothing counted. */
  lemma OtherOrderLeavesGuard(original: Prototypes)
    ensures
      var ops := [Install, Install, Release(FirstHandle), Release(LaterHandle)];
      Count(ops) == 0 && Run(original, ops).protos == Patch(original) != original
  {
    hide Run, Count, Patch;
    var two := [Install] + [Install];
    var three := two + [Release(FirstHandle)];
    RunSnoc(original, [], Install);
    assert [] + [Install] == [Install];
    RunSnoc(original, [Install], Install);
    RunSnoc(original, two, Release(FirstHandle));
    RunSnoc(original, three, Release(LaterHandle));
    assert three + [Release(LaterHandle)] == [Install, Install, Release(FirstHandle), Release(LaterHandle)];
    PatchShows(original);
  }

  lemma PatchShows(p: Prototypes)
    ensures Patch(p) != p
  {
    assert TransformDepth(Patch(p).setTransform) == 1 + TransformDepth(p.setTransform);
  }

  lemma RunSnoc(original: Prototypes, ops: seq<Op>, op: Op)
    ensures Run(original, ops + [op]) == Next(Run(original, ops), op)
    ensures Count(ops + [op]) == if op.Install? then Count(ops) + 1 else if Count(ops) > 0 then Count(ops) - 1 else 0
    ensures ops == [] ==> Run(original, ops) == Fresh(original) && Count(ops) == 0
  {
    assert (ops + [op])[..|ops|] == ops;
  }
}
