/** Keeping canvases below the browser's caps (apps/dashboard/lib/canvas-max-size-guard.ts:8-63),
    in exact arithmetic. */
module CanvasSize {
  import opened Common

  const MAX_DIM := 8192
  const MAX_AREA := 16_777_216

  datatype Size = Size(width: int, height: int)

  function Min(a: int, b: int): (r: int) {
    if a <= b then a else b
  }

  function Max(a: int, b: int): (r: int) {
    if a >= b then a else b
  }

  /** The integer square root. */
  function Isqrt(n: nat): (r: nat)
    ensures r * r <= n < (r + 1) * (r + 1)
  {
    if n == 0 then 0
    else
      var r := Isqrt(n - 1);
      if (r + 1) * (r + 1) <= n then r + 1 else r
  }

  lemma IsqrtIsUnique(n: nat, r: nat)
    requires r * r <= n < (r + 1) * (r + 1)
    ensures Isqrt(n) == r
  {
    var q := Isqrt(n);
    if q < r { Squares(q + 1, r); }
    if r < q { Squares(r + 1, q); }
  }

  lemma TimesAtMost(a: int, b: int, k: nat)
    requires a <= b
    ensures a * k <= b * k
  {
  }

  lemma TimesLess(a: int, b: int, k: nat)
    requires a < b && k > 0
    ensures a * k < b * k
  {
  }

  lemma CancelAtMost(a: int, b: int, k: nat)
    requires a * k <= b * k && k > 0
    ensures a <= b
  {
    if b < a { TimesLess(b, a, k); }
  }

  lemma CancelLess(a: int, b: int, k: nat)
    requires a * k < b * k
    ensures a < b
  {
    if b <= a { TimesAtMost(b, a, k); }
  }

  lemma Squares(a: nat, b: nat)
    requires a <= b
    ensures a * a <= b * b
  {
    TimesAtMost(a, b, a);
    TimesAtMost(a, b, b);
  }

  lemma RealTimesAtMost(a: real, b: real, k: real)
    requires a <= b && k >= 0.0
    ensures a * k <= b * k
  {
  }

  lemma RealTimesLess(a: real, b: real, k: real)
    requires a < b && k > 0.0
    ensures a * k < b * k
  {
  }

  lemma RealOfProduct(a: int, b: int)
    ensures (a * b) as real == a as real * b as real
  {
  }

  // ---- clamping ----

  /** `Math.floor(n * Math.sqrt(MAX_CANVAS_AREA / area))`. */
  function FloorScaled(n: nat, area: nat): (r: nat)
    requires area > 0
  {
    Isqrt(n * n * MAX_AREA / area)
  }

  /** The integer form is the floor of the real product, whatever real root is taken. */
  lemma FloorScaledIsExact(n: nat, area: nat, scale: real)
    requires area > 0 && scale >= 0.0 && scale * scale * area as real == MAX_AREA as real
    ensures (n as real * scale).Floor == FloorScaled(n, area)
  {
    hide Isqrt;
    var product := n as real * scale;
    var r := product.Floor;
    RealSquare(product, r);
    var quotient := n * n * MAX_AREA / area;
    assert product * product * area as real == (n * n * MAX_AREA) as real by {
      SquareOfProduct(n as real, scale, area as real);
      assert (n * n * MAX_AREA) as real == n as real * n as real * MAX_AREA as real;
    }
    FloorOfQuotient(n * n * MAX_AREA, area, product * product, r);
    IsqrtIsUnique(quotient, r);
  }

  lemma SquareOfProduct(n: real, scale: real, area: real)
    requires scale * scale * area == MAX_AREA as real
    ensures n * scale * (n * scale) * area == n * n * MAX_AREA as real
  {
    assert n * scale * (n * scale) * area == n * n * (scale * scale * area);
  }

  lemma RealSquare(x: real, r: int)
    requires x >= 0.0 && r == x.Floor
    ensures r >= 0 && (r * r) as real <= x * x < ((r + 1) * (r + 1)) as real
  {
    BelowSquare(x, r + 1);
    AboveSquare(x, r);
  }

  lemma BelowSquare(x: real, m: int)
    requires 0.0 <= x < m as real
    ensures x * x < (m * m) as real
  {
    RealOfProduct(m, m);
    RealSquaresLess(x, m as real);
  }

  lemma AboveSquare(x: real, r: int)
    requires 0.0 <= r as real <= x
    ensures (r * r) as real <= x * x
  {
    RealOfProduct(r, r);
    RealSquares(r as real, x);
  }

  lemma RealSquares(a: real, b: real)
    requires 0.0 <= a <= b
    ensures a * a <= b * b
  {
    RealTimesAtMost(a, b, a);
    RealTimesAtMost(a, b, b);
  }

  lemma RealSquaresLess(a: real, b: real)
    requires 0.0 <= a < b
    ensures a * a < b * b
  {
    RealTimesLess(0.0, b - a, b + a);
    assert (b - a) * (b + a) == b * b - a * a;
  }

  lemma FloorOfQuotient(m: nat, area: nat, square: real, r: nat)
    requires area > 0 && square * area as real == m as real
    requires (r * r) as real <= square < ((r + 1) * (r + 1)) as real
    ensures r * r <= m / area < (r + 1) * (r + 1)
  {
    var low, high := r * r, (r + 1) * (r + 1);
    RealTimesAtMost(low as real, square, area as real);
    RealTimesLess(square, high as real, area as real);
    RealOfProduct(low, area);
    RealOfProduct(high, area);
    QuotientBetween(m, area, low, high);
  }

  lemma QuotientBetween(m: nat, area: nat, low: int, high: int)
    requires area > 0 && low * area <= m < high * area
    ensures low <= m / area < high
  {
    var q := m / area;
    QuotientBounds(m, area);
    CancelLess(low, q + 1, area);
    CancelLess(q, high, area);
  }

  lemma QuotientBounds(m: nat, area: nat)
    requires area > 0
    ensures m / area * area <= m < (m / area + 1) * area
  {
  }

  /** A whole number of pixels; 1 for anything that is not finite and positive. */
  function Pixels(v: Num): (n: nat) {
    if v.Finite? && v.r > 0.0 then v.r.Floor else 1
  }

  /** A positive width or height below one, which rounds down to no pixel at all. */
  predicate BelowOne(v: Num) {
    v.Finite? && 0.0 < v.r < 1.0
  }

  lemma PixelsZeroIff(v: Num)
    ensures Pixels(v) == 0 <==> BelowOne(v)
  {
  }

  function Fit(w: nat, h: nat): (r: Size) {
    var w, h := Min(w, MAX_DIM), Min(h, MAX_DIM);
    if w * h <= MAX_AREA then Size(w, h)
    else Size(Max(1, FloorScaled(w, w * h)), Max(1, FloorScaled(h, w * h)))
  }

  function Clamp(width: Num, height: Num): (r: Size) {
    Fit(Pixels(width), Pixels(height))
  }

  /** `clampBackingStoreSize`. */
  method ClampBackingStoreSize(width: Num, height: Num) returns (r: Size)
    ensures r == Clamp(width, height)
  {
    hide FloorScaled;
    var w := if width.Finite? && width.r > 0.0 then width.r.Floor else 1;
    var h := if height.Finite? && height.r > 0.0 then height.r.Floor else 1;
    w := Min(w, MAX_DIM);
    h := Min(h, MAX_DIM);
    var area := w * h;
    if area > MAX_AREA {
      w := Max(1, FloorScaled(w, area));
      h := Max(1, FloorScaled(h, area));
    }
    r := Size(w, h);
  }

  predicate WithinCaps(s: Size) {
    0 <= s.width <= MAX_DIM && 0 <= s.height <= MAX_DIM && s.width * s.height <= MAX_AREA
  }

  predicate Drawable(s: Size) {
    WithinCaps(s) && s.width >= 1 && s.height >= 1
  }

  lemma ScaledSquare(n: nat, area: nat)
    requires area > 0
    ensures FloorScaled(n, area) * FloorScaled(n, area) * area <= n * n * MAX_AREA
  {
    hide Isqrt;
    var r := FloorScaled(n, area);
    var q := n * n * MAX_AREA / area;
    QuotientBounds(n * n * MAX_AREA, area);
    TimesAtMost(r * r, q, area);
  }

  /** Scaling one side shrinks it, but not to nothing. */
  lemma ScaledShrinks(n: nat, area: nat)
    requires n >= 1 && MAX_AREA < area <= n * n * MAX_AREA
    ensures 1 <= FloorScaled(n, area) < n
  {
    hide Isqrt;
    var r := FloorScaled(n, area);
    TimesLess(MAX_AREA, area, n * n);
    QuotientBetween(n * n * MAX_AREA, area, 1, n * n);
    if r >= n { Squares(n, r); }
  }

  lemma AreaIsSmall(n: nat, other: nat)
    requires 1 <= n && 1 <= other <= MAX_DIM
    ensures n * other <= n * n * MAX_AREA
  {
    TimesAtMost(other, MAX_AREA, n);
    TimesAtMost(1, n, n * MAX_AREA);
  }

  /** Both scaled sides together stay below the area cap. */
  lemma ScaledArea(w: nat, h: nat, a: nat, b: nat)
    requires w * h > 0 && a * a * (w * h) <= w * w * MAX_AREA && b * b * (w * h) <= h * h * MAX_AREA
    ensures a * b <= MAX_AREA
  {
    var p, area := a * b, w * h;
    var x, y, u, v := a * a * area, b * b * area, w * w * MAX_AREA, h * h * MAX_AREA;
    TimesAtMost(x, u, y);
    TimesAtMost(y, v, u);
    assert x * y <= u * v;
    SquaresRegroup(a, b, area, area);
    SquaresRegroup(w, h, MAX_AREA, MAX_AREA);
    assert (p * area) * (p * area) <= (area * MAX_AREA) * (area * MAX_AREA);
    RootAtMost(p * area, area * MAX_AREA);
    CancelAtMost(p, MAX_AREA, area);
  }

  lemma SquaresRegroup(a: nat, b: nat, k: nat, l: nat)
    ensures (a * a * k) * (b * b * l) == (a * b) * (a * b) * (k * l)
    ensures k == l ==> (a * a * k) * (b * b * l) == (a * b * k) * (a * b * k)
  {
    assert (a * a * k) * (b * b * l) == ((a * a) * (b * b)) * (k * l);
    assert (a * a) * (b * b) == (a * b) * (a * b);
  }

  lemma RootAtMost(a: nat, b: nat)
    requires a * a <= b * b
    ensures a <= b
  {
    if b < a {
      TimesLess(b, a, a);
      TimesAtMost(b, a, b);
    }
  }

  lemma FitMeans(w: nat, h: nat)
    ensures WithinCaps(Fit(w, h))
    ensures Fit(w, h).width == 0 <==> w == 0
    ensures Fit(w, h).height == 0 <==> h == 0
    ensures WithinCaps(Size(w, h)) <==> Fit(w, h) == Size(w, h)
  {
    hide FloorScaled;
    var a, b := Min(w, MAX_DIM), Min(h, MAX_DIM);
    if a * b > MAX_AREA {
      assert a > 0 && b > 0;
      AreaIsSmall(a, b);
      AreaIsSmall(b, a);
      ScaledShrinks(a, a * b);
      ScaledShrinks(b, a * b);
      ScaledSquare(a, a * b);
      ScaledSquare(b, a * b);
      ScaledArea(a, b, FloorScaled(a, a * b), FloorScaled(b, a * b));
    }
  }

  /** Every clamped size is within the caps, and has a pixel in it unless a side was
      assigned a positive value below one. */
  lemma ClampIsWithinCaps(width: Num, height: Num)
    ensures WithinCaps(Clamp(width, height))
    ensures Drawable(Clamp(width, height)) <==> !BelowOne(width) && !BelowOne(height)
  {
    hide Fit, Pixels;
    FitMeans(Pixels(width), Pixels(height));
    PixelsZeroIff(width);
    PixelsZeroIff(height);
  }

  // ---- what an oversized canvas becomes ----

  /** `n` is the side cut to whole pixels and to 8192; 1 if the value is not a positive number. */
  predicate CutTo(v: Num, n: nat) {
    if v.Finite? && v.r > 0.0 then
      n <= 8192 && n as real <= v.r && (n < 8192 ==> v.r < n as real + 1.0)
    else n == 1
  }

  /** `n` is the greatest number of pixels whose square times `other` is at most `side` times
      the area cap: the floor of `side` scaled so that the area of both sides is the cap. */
  predicate GreatestScaled(n: int, side: nat, other: nat) {
    n >= 1 && n * n * other <= side * 16_777_216 < (n + 1) * (n + 1) * other
  }

  lemma CutIsPixels(v: Num, n: nat)
    requires CutTo(v, n)
    ensures n == Min(Pixels(v), 8192)
  {
  }

  lemma FloorScaledIsGreatest(n: nat, other: nat)
    requires n >= 1 && other >= 1 && 16_777_216 < n * other <= n * n * 16_777_216
    ensures GreatestScaled(FloorScaled(n, n * other), n, other)
  {
    hide Isqrt;
    var area, cap := n * other, 16_777_216;
    var r := FloorScaled(n, area);
    var q := n * n * cap / area;
    ScaledShrinks(n, area);
    ScaledSquare(n, area);
    QuotientBounds(n * n * cap, area);
    var above := (r + 1) * (r + 1);
    assert q + 1 <= above;
    TimesAtMost(q + 1, above, area);
    Regroup(r * r, n, other);
    Regroup(above, n, other);
    assert n * n * cap == (n * cap) * n by { Regroup(cap, n, n); }
    CancelAtMost(r * r * other, n * cap, n);
    CancelLess(n * cap, above * other, n);
  }

  lemma Regroup(x: int, n: nat, other: nat)
    ensures x * (n * other) == (x * other) * n && n * other * x == (n * x) * other
  {
    assert x * (n * other) == (x * other) * n;
    assert n * other * x == (n * x) * other;
  }

  /** Every clamped size in full: the sides cut to whole pixels and to 8192, and if their area
      is above the cap, each the greatest that the common scale allows. */
  lemma ClampMeans(width: Num, height: Num, a: nat, b: nat)
    requires CutTo(width, a) && CutTo(height, b)
    ensures
      var s := Clamp(width, height);
      if a * b <= 16_777_216 then s == Size(a, b)
      else GreatestScaled(s.width, a, b) && GreatestScaled(s.height, b, a)
  {
    hide FloorScaled, Pixels, CutTo, GreatestScaled;
    CutIsPixels(width, a);
    CutIsPixels(height, b);
    CutIsSmall(width, a);
    CutIsSmall(height, b);
    if a * b > 16_777_216 {
      assert a > 0 && b > 0;
      AreaIsSmall(a, b);
      AreaIsSmall(b, a);
      FloorScaledIsGreatest(a, b);
      assert a * b == b * a;
      FloorScaledIsGreatest(b, a);
      GreatestIsPositive(FloorScaled(a, a * b), a, b);
      GreatestIsPositive(FloorScaled(b, a * b), b, a);
    }
  }

  lemma CutIsSmall(v: Num, n: nat)
    requires CutTo(v, n)
    ensures n <= 8192
  {
  }

  lemma GreatestIsPositive(n: int, side: nat, other: nat)
    requires GreatestScaled(n, side, other)
    ensures n >= 1
  {
  }

  /** For every real scale that brings the area to the cap, each side is the floor of the
      scaled side. */
  lemma ClampIsScaled(width: Num, height: Num, a: nat, b: nat, scale: real)
    requires CutTo(width, a) && CutTo(height, b) && a * b > 16_777_216
    requires scale >= 0.0 && scale * scale * (a * b) as real == 16_777_216.0
    ensures Clamp(width, height) == Size((a as real * scale).Floor, (b as real * scale).Floor)
  {
    hide FloorScaled, Pixels, CutTo;
    CutIsPixels(width, a);
    CutIsPixels(height, b);
    CutIsSmall(width, a);
    CutIsSmall(height, b);
    assert a > 0 && b > 0;
    AreaIsSmall(a, b);
    AreaIsSmall(b, a);
    ScaledShrinks(a, a * b);
    ScaledShrinks(b, a * b);
    FloorScaledIsExact(a, a * b, scale);
    FloorScaledIsExact(b, a * b, scale);
  }

  function Whole(n: int): (v: Num) {
    Finite(n as real)
  }

  lemma PixelsOfWhole(n: int)
    ensures Pixels(Whole(n)) == if n > 0 then n else 1
  {
  }

  /** Whole sizes are left alone exactly when they are drawable. */
  lemma ClampIsIdentityIff(w: int, h: int)
    ensures Clamp(Whole(w), Whole(h)) == Size(w, h) <==> Drawable(Size(w, h))
  {
    hide Fit;
    PixelsOfWhole(w);
    PixelsOfWhole(h);
    FitMeans(Pixels(Whole(w)), Pixels(Whole(h)));
  }

  /** Clamping twice is clamping once, exactly when neither side was below one. */
  lemma ClampIsIdempotentIff(width: Num, height: Num)
    ensures
      var s := Clamp(width, height);
      Clamp(Whole(s.width), Whole(s.height)) == s <==> !BelowOne(width) && !BelowOne(height)
  {
    hide Clamp;
    var s := Clamp(width, height);
    ClampIsWithinCaps(width, height);
    ClampIsIdentityIff(s.width, s.height);
  }

  // ---- the patched setters ----

  /** One assignment to a property of a canvas. */
  datatype Assignment = SetWidth(value: Num) | SetHeight(value: Num)

  /** What a canvas has after the assignment. */
  function Assigned(s: Size, a: Assignment): (r: Size) {
    match a
    case SetWidth(v) => Clamp(v, Whole(s.height))
    case SetHeight(v) => Clamp(Whole(s.width), v)
  }

  class Canvas {
    var width: int
    var height: int

    function Current(): (s: Size)
      reads this
    {
      Size(width, height)
    }

    /** The `set` of the patched `width`. */
    method PatchedSetWidth(value: Num)
      modifies this
      ensures Current() == Assigned(old(Current()), SetWidth(value))
    {
      var next := ClampBackingStoreSize(value, Whole(height));
      width := next.width;
      if height != next.height {
        height := next.height;
      }
    }

    /** The `set` of the patched `height`. */
    method PatchedSetHeight(value: Num)
      modifies this
      ensures Current() == Assigned(old(Current()), SetHeight(value))
    {
      var next := ClampBackingStoreSize(Whole(width), value);
      height := next.height;
      if width != next.width {
        width := next.width;
      }
    }
  }

  function AllAssigned(s: Size, as_: seq<Assignment>): (r: Size) {
    if as_ == [] then s else Assigned(AllAssigned(s, as_[..|as_| - 1]), as_[|as_| - 1])
  }

  /** After any assignments to a canvas of any size it is within both caps; it is drawable
      exactly when the last value assigned was not a positive one below one, whatever was
      assigned before. */
  lemma AssignmentsKeepCaps(s: Size, as_: seq<Assignment>)
    requires as_ != []
    ensures WithinCaps(AllAssigned(s, as_))
    ensures Drawable(AllAssigned(s, as_)) <==> !BelowOne(as_[|as_| - 1].value)
  {
    hide Clamp, BelowOne;
    var before := AllAssigned(s, as_[..|as_| - 1]);
    WholeIsNotBelowOne(before.width);
    WholeIsNotBelowOne(before.height);
    match as_[|as_| - 1]
    case SetWidth(v) => ClampIsWithinCaps(v, Whole(before.height));
    case SetHeight(v) => ClampIsWithinCaps(Whole(before.width), v);
  }

  lemma WholeIsNotBelowOne(n: int)
    ensures !BelowOne(Whole(n))
  {
  }

  /** On a drawable canvas the patched setter acts as the plain one exactly when the whole
      number assigned keeps the canvas drawable. */
  lemma SetterIsPlainIff(s: Size, n: int)
    requires Drawable(s)
    ensures Assigned(s, SetWidth(Whole(n))) == s.(width := n) <==> Drawable(s.(width := n))
    ensures Assigned(s, SetHeight(Whole(n))) == s.(height := n) <==> Drawable(s.(height := n))
  {
    hide Clamp;
    ClampIsIdentityIff(n, s.height);
    ClampIsIdentityIff(s.width, n);
  }

  // ---- the CSS box ----

  /** `Math.max(dpr || 1, 1)`; infinite, or finite and at least one. */
  function ScaleOf(dpr: Num): (scale: Num)
    ensures scale.PositiveInfinity? || (scale.Finite? && scale.r >= 1.0)
  {
    if dpr.PositiveInfinity? then dpr
    else if dpr.Finite? && dpr.r >= 1.0 then dpr
    else Finite(1.0)
  }

  /** `Math.floor(n / scale)`. */
  function FloorOver(n: nat, scale: Num): (r: nat)
    requires scale.Finite? ==> scale.r >= 1.0
  {
    if scale.Finite? then OverAtLeastZero(n, scale.r); (n as real / scale.r).Floor else 0
  }

  lemma OverAtLeastZero(n: nat, x: real)
    requires x >= 1.0
    ensures (n as real / x).Floor >= 0
  {
  }

  /** `Math.floor(MAX_CANVAS_AREA / (scale * scale))`. */
  function MaxAreaCss(scale: Num): (r: nat)
    requires scale.Finite? ==> scale.r >= 1.0
  {
    if scale.Finite? then
      RealTimesAtMost(1.0, scale.r, scale.r);
      FloorOver(MAX_AREA, Finite(scale.r * scale.r))
    else 0
  }

  /** `maxCssBox`. */
  function MaxCssBox(dpr: Num): (r: Size) {
    var scale := ScaleOf(dpr);
    var maxWidth := Max(320, FloorOver(MAX_DIM, scale));
    var maxHeight := Max(240, FloorOver(MAX_DIM, scale));
    var maxAreaCss := MaxAreaCss(scale);
    if maxWidth * maxHeight <= maxAreaCss then Size(maxWidth, maxHeight)
    else
      var side := Max(240, Isqrt(maxAreaCss));
      Size(Min(maxWidth, side), Min(maxHeight, side))
  }

  /** The root of the scaled area is the scaled root of the area. */
  lemma RootOfArea(scale: Num)
    requires scale.Finite? ==> scale.r >= 1.0
    ensures Isqrt(MaxAreaCss(scale)) == FloorOver(4096, scale)
  {
    hide Isqrt;
    if scale.Finite? {
      var s := scale.r;
      var x := 4096.0 / s;
      var k := x.Floor;
      OverAtLeastZero(4096, s);
      RealSquare(x, k);
      RealTimesAtMost(1.0, s, s);
      SquareOfOver(s);
      assert MaxAreaCss(scale) == (x * x).Floor;
      IsqrtIsUnique(MaxAreaCss(scale), k);
    } else {
      IsqrtIsUnique(0, 0);
    }
  }

  lemma SquareOfOver(s: real)
    requires s >= 1.0 && s * s >= 1.0
    ensures (4096.0 / s) * (4096.0 / s) == MAX_AREA as real / (s * s)
  {
    var x := 4096.0 / s;
    assert x * s == 4096.0;
    assert (x * x) * (s * s) == (x * s) * (x * s);
    OverOf(x * x, s * s, MAX_AREA as real);
  }

  lemma OverOf(q: real, d: real, n: real)
    requires d > 0.0 && q * d == n
    ensures q == n / d
  {
  }

  lemma DoubleFloor(scale: Num)
    requires scale.Finite? ==> scale.r >= 1.0
    ensures 2 * FloorOver(4096, scale) <= FloorOver(MAX_DIM, scale)
  {
    if scale.Finite? {
      var x := 4096.0 / scale.r;
      OverAtLeastZero(4096, scale.r);
      assert x * scale.r == 4096.0;
      OverOf(x + x, scale.r, MAX_DIM as real);
    }
  }

  lemma BoxIsSquareOfScale(dpr: Num)
    ensures
      var side := Max(240, FloorOver(4096, ScaleOf(dpr)));
      MaxCssBox(dpr) == Size(side, side)
  {
    hide Isqrt, FloorOver, ScaleOf, MaxAreaCss;
    var scale := ScaleOf(dpr);
    var k := FloorOver(4096, scale);
    RootOfArea(scale);
    DoubleFloor(scale);
    var area := MaxAreaCss(scale);
    assert area < (k + 1) * (k + 1);
    var maxWidth := Max(320, FloorOver(MAX_DIM, scale));
    var maxHeight := Max(240, FloorOver(MAX_DIM, scale));
    AtLeastSquare(k + 1, maxWidth, maxHeight);
  }

  /** The box is always a square: for a ratio of at least one of side 4096 device pixels or 240
      CSS pixels, whichever is more; for an infinite one of 240, for any other value of 4096.
      The return before the square is never taken. */
  lemma BoxIsSquare(dpr: Num)
    ensures dpr.PositiveInfinity? ==> MaxCssBox(dpr) == Size(240, 240)
    ensures dpr.Finite? && dpr.r >= 1.0 ==>
      var side := Max(240, (4096.0 / dpr.r).Floor);
      MaxCssBox(dpr) == Size(side, side)
    ensures dpr.NaN? || dpr.NegativeInfinity? || (dpr.Finite? && dpr.r < 1.0) ==> MaxCssBox(dpr) == Size(4096, 4096)
  {
    hide MaxCssBox;
    BoxIsSquareOfScale(dpr);
    OverOf(4096.0, 1.0, 4096.0);
  }

  lemma AtLeastSquare(k: nat, a: int, b: int)
    requires k <= a && k <= b
    ensures k * k <= a * b
  {
    TimesAtMost(k, a, k);
    TimesAtMost(k, b, a);
  }

  /** The backing store of the box, in device pixels, is within both caps. */
  predicate BoxWithinCaps(box: Size, scale: real) {
    var w, h := box.width as real * scale, box.height as real * scale;
    w <= MAX_DIM as real && h <= MAX_DIM as real && w * h <= MAX_AREA as real
  }

  /** The box respects both caps exactly when the least side, 240, does; and then no larger
      square would. */
  lemma BoxFitsIff(dpr: Num)
    requires !dpr.PositiveInfinity?
    ensures
      var scale, box := if dpr.Finite? && dpr.r >= 1.0 then dpr.r else 1.0, MaxCssBox(dpr);
      && (BoxWithinCaps(box, scale) <==> 240.0 * scale <= 4096.0)
      && !BoxWithinCaps(Size(box.width + 1, box.height + 1), scale)
  {
    hide MaxCssBox, ScaleOf, BoxWithinCaps, FloorOver;
    var scale := if dpr.Finite? && dpr.r >= 1.0 then dpr.r else 1.0;
    ScaleIs(dpr, scale);
    BoxIsSquareOfScale(dpr);
    OverTimes(4096.0, scale);
    FloorOverIs(scale);
    SideFitsIff(FloorOver(4096, Finite(scale)), 4096.0 / scale, scale);
  }

  lemma ScaleIs(dpr: Num, scale: real)
    requires !dpr.PositiveInfinity? && scale == if dpr.Finite? && dpr.r >= 1.0 then dpr.r else 1.0
    ensures ScaleOf(dpr) == Finite(scale)
  {
  }

  lemma FloorOverIs(scale: real)
    requires scale >= 1.0
    ensures FloorOver(4096, Finite(scale)) == (4096.0 / scale).Floor
  {
  }

  lemma OverTimes(n: real, d: real)
    requires d > 0.0
    ensures n / d * d == n
  {
  }

  lemma RealCancel(a: real, b: real, k: real)
    requires a * k <= b * k && k > 0.0
    ensures a <= b
  {
    if b < a { RealTimesLess(b, a, k); }
  }

  lemma SideFitsIff(k: int, x: real, scale: real)
    requires scale >= 1.0 && x * scale == 4096.0 && k as real <= x < (k + 1) as real
    ensures
      var side := Max(240, k);
      && (BoxWithinCaps(Size(side, side), scale) <==> 240.0 * scale <= 4096.0)
      && !BoxWithinCaps(Size(side + 1, side + 1), scale)
  {
    hide BoxWithinCaps;
    var side := Max(240, k);
    SquareFitsIff(side, scale);
    SquareFitsIff(side + 1, scale);
    RealTimesLess(x, (k + 1) as real, scale);
    RealTimesAtMost((k + 1) as real, (side + 1) as real, scale);
    RealTimesAtMost(240.0, side as real, scale);
    if 240.0 * scale <= 4096.0 {
      RealCancel(240.0, x, scale);
      assert k >= 240 && side == k;
      RealTimesAtMost(side as real, x, scale);
    }
  }

  lemma SquareFitsIff(side: int, scale: real)
    requires side > 0 && scale >= 1.0
    ensures BoxWithinCaps(Size(side, side), scale) <==> side as real * scale <= 4096.0
  {
    RealTimesAtMost(1.0, scale, side as real);
    SquareAtMost(side as real * scale);
  }

  lemma SquareAtMost(w: real)
    requires w > 0.0
    ensures w <= MAX_DIM as real && w * w <= MAX_AREA as real <==> w <= 4096.0
  {
    if w <= 4096.0 {
      RealSquares(w, 4096.0);
    } else {
      RealSquaresLess(4096.0, w);
    }
  }
}
