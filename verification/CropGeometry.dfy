/** The crop arithmetic of an image slot (cloud-web/image-slot.js), over the reals: where the image
    box lies in its frame, and what panning, wheel zoom and corner resizing do to it. */
module CropGeometry {
  import opened Latch
  import opened Wrappers

  /** Natural image size, frame size, and the scale at which the image is laid out when the view's
      own scale is 1 (_geom). */
  datatype Geom = Geom(iw: real, ih: real, fw: real, fh: real, base: real, contain: bool)

  /** Scale, and offset of the image centre from the frame centre in percent of the frame. */
  datatype View = View(s: real, x: real, y: real)

  const S_MAX := 5.0

  function Max(a: real, b: real): real { if a >= b then a else b }
  function Min(a: real, b: real): real { if a <= b then a else b }

  function ClampS(s: real): real {
    Max(1.0, Min(S_MAX, s))
  }

  predicate Known(g: Geom) {
    g.iw > 0.0 && g.ih > 0.0 && g.fw > 0.0 && g.fh > 0.0 && g.base > 0.0
  }

  /** In cover mode the laid-out image reaches the frame's size on both axes. */
  predicate Fitted(g: Geom)
    requires Known(g)
  {
    !g.contain ==> g.base >= g.fw / g.iw && g.base >= g.fh / g.ih
  }

  /** _geom, once the image has loaded and the slot has a box. */
  function GeomOf(iw: real, ih: real, fw: real, fh: real, contain: bool): (g: Geom)
    requires iw > 0.0 && ih > 0.0 && fw > 0.0 && fh > 0.0
    ensures Known(g) && Fitted(g)
  {
    Geom(iw, ih, fw, fh, if contain then Min(fw / iw, fh / ih) else Max(fw / iw, fh / ih), contain)
  }

  /** The image box on each axis, as a multiple of the frame (width and height over 100%). */
  datatype Extent = Extent(rx: real, ry: real)

  function Ratio(image: real, frame: real, scale: real): real
    requires frame > 0.0
  {
    image * scale / frame
  }

  function ExtentOf(g: Geom, s: real): Extent
    requires Known(g)
  {
    Extent(Ratio(g.iw, g.fw, g.base * s), Ratio(g.ih, g.fh, g.base * s))
  }

  /** The edges of the box as _applyView lays it out, in percent of the frame. */
  function Left(e: Extent, v: View): real { 50.0 + v.x - e.rx * 100.0 / 2.0 }
  function Right(e: Extent, v: View): real { 50.0 + v.x + e.rx * 100.0 / 2.0 }
  function Top(e: Extent, v: View): real { 50.0 + v.y - e.ry * 100.0 / 2.0 }
  function Bottom(e: Extent, v: View): real { 50.0 + v.y + e.ry * 100.0 / 2.0 }

  predicate Covers(e: Extent, v: View) {
    Left(e, v) <= 0.0 && Right(e, v) >= 100.0 && Top(e, v) <= 0.0 && Bottom(e, v) >= 100.0
  }

  function Clamped(m: real, x: real): real {
    Max(-m, Min(m, x))
  }

  function ClampBy(e: Extent, v: View): View {
    View(v.s, Clamped(Max(0.0, (e.rx - 1.0) * 50.0), v.x), Clamped(Max(0.0, (e.ry - 1.0) * 50.0), v.y))
  }

  /** _clampView. */
  function ClampView(g: Geom, v: View): View
    requires Known(g)
  {
    ClampBy(ExtentOf(g, v.s), v)
  }

  ghost predicate CoversFrame(g: Geom, v: View)
    requires Known(g)
  {
    Covers(ExtentOf(g, v.s), v)
  }

  // ---------------------------------------------------------------- clamping

  lemma DivMul(a: real, b: real)
    requires b > 0.0
    ensures b * (a / b) == a
  {
  }

  lemma AtLeastOne(a: real, f: real)
    requires f > 0.0 && a >= f
    ensures a / f >= 1.0
  {
  }

  lemma ScaleUp(image: real, frame: real, base: real, s: real)
    requires image > 0.0 && frame > 0.0 && base >= frame / image && s >= 1.0
    ensures Ratio(image, frame, base * s) >= 1.0
  {
    DivMul(frame, image);
    assert image * base >= image * (frame / image);
    assert (image * base) * s >= image * base;
    assert image * (base * s) == (image * base) * s;
    AtLeastOne(image * (base * s), frame);
  }

  /** In cover mode the image is at least as large as the frame on both axes. */
  lemma CoverIsWide(g: Geom, s: real)
    requires Known(g) && Fitted(g) && !g.contain && s >= 1.0
    ensures ExtentOf(g, s).rx >= 1.0 && ExtentOf(g, s).ry >= 1.0
  {
    ScaleUp(g.iw, g.fw, g.base, s);
    ScaleUp(g.ih, g.fh, g.base, s);
  }

  /** On each axis the clamped box covers the frame, or is smaller than it and centred; and a view
      that covers already is left alone. */
  lemma ClampPerAxis(e: Extent, v: View)
    ensures var c := ClampBy(e, v);
            && (if e.rx >= 1.0 then Left(e, c) <= 0.0 && Right(e, c) >= 100.0 else c.x == 0.0)
            && (if e.ry >= 1.0 then Top(e, c) <= 0.0 && Bottom(e, c) >= 100.0 else c.y == 0.0)
            && (Covers(e, v) ==> c == v)
  {
  }

  // ---------------------------------------------------------------- the gestures

  /** Centre of the image box, in pixels of the frame. */
  function CentreX(g: Geom, v: View): real { (50.0 + v.x) / 100.0 * g.fw }
  function CentreY(g: Geom, v: View): real { (50.0 + v.y) / 100.0 * g.fh }

  function Width(g: Geom, s: real): real requires Known(g) { g.iw * g.base * s }
  function Height(g: Geom, s: real): real requires Known(g) { g.ih * g.base * s }

  /** A corner: sx is 1 on the east side and -1 on the west, sy 1 on the south and -1 on the north. */
  datatype Corner = Corner(sx: real, sy: real)

  predicate IsCorner(c: Corner) {
    (c.sx == 1.0 || c.sx == -1.0) && (c.sy == 1.0 || c.sy == -1.0)
  }

  /** Where a corner of the box is, in pixels of the frame. */
  function CornerX(g: Geom, v: View, sx: real): real requires Known(g) { CentreX(g, v) + sx * Width(g, v.s) / 2.0 }
  function CornerY(g: Geom, v: View, sy: real): real requires Known(g) { CentreY(g, v) + sy * Height(g, v.s) / 2.0 }

  /** Math.hypot of the box at the start of the drag. */
  ghost predicate IsDiagonal(g: Geom, s: real, diag: real)
    requires Known(g)
  {
    diag > 0.0 && diag * diag == Width(g, s) * Width(g, s) + Height(g, s) * Height(g, s)
  }

  /** The same slot seen through an ancestor that scales it: its rectangle on screen. */
  function OnScreen(g: Geom, k: real): Geom {
    g.(fw := k * g.fw, fh := k * g.fh, base := k * g.base)
  }

  lemma GeomOnScreen(iw: real, ih: real, fw: real, fh: real, contain: bool, k: real)
    requires iw > 0.0 && ih > 0.0 && fw > 0.0 && fh > 0.0 && k > 0.0
    ensures k * fw > 0.0 && k * fh > 0.0 && GeomOf(iw, ih, k * fw, k * fh, contain) == OnScreen(GeomOf(iw, ih, fw, fh, contain), k)
  {
    assert k * fw / iw == k * (fw / iw);
    assert k * fh / ih == k * (fh / ih);
  }

  lemma RatioOnScreen(image: real, frame: real, base: real, s: real, k: real)
    requires frame > 0.0 && k > 0.0
    ensures k * frame > 0.0 && Ratio(image, k * frame, (k * base) * s) == Ratio(image, frame, base * s)
  {
    SameRatio(image * (base * s), frame, k);
    assert image * ((k * base) * s) == (image * (base * s)) * k;
    assert k * frame == frame * k;
  }

  /** In percent the image box is the same at every scale, so the mouse arithmetic may be done in
      screen pixels and clamped in layout pixels. */
  lemma ScaleInvisible(g: Geom, s: real, k: real)
    requires Known(g) && k > 0.0
    ensures Known(OnScreen(g, k)) && ExtentOf(OnScreen(g, k), s) == ExtentOf(g, s)
  {
    RatioOnScreen(g.iw, g.fw, g.base, s, k);
    RatioOnScreen(g.ih, g.fh, g.base, s, k);
  }

  /** The box at the press of a drag: size and centre in pixels, and its scale. */
  datatype Box = Box(w: real, h: real, cx: real, cy: real, s: real)

  /** The cursor projected on the diagonal from the corner opposite the one held. */
  function Projection(b: Box, c: Corner, px: real, py: real, diag: real): real
    requires diag > 0.0
  {
    var ox, oy := b.cx - c.sx * b.w / 2.0, b.cy - c.sy * b.h / 2.0;
    var ux, uy := c.sx * b.w / diag, c.sy * b.h / diag;
    (px - ox) * ux + (py - oy) * uy
  }

  function Asked(s: real, proj: real, diag: real): real
    requires diag > 0.0
  {
    s * proj / diag
  }

  /** The scale a move of the mouse asks for. */
  function DragScale(b: Box, c: Corner, px: real, py: real, diag: real): (s: real)
    requires diag > 0.0
    ensures 1.0 <= s <= S_MAX
  {
    ClampS(Asked(b.s, Projection(b, c, px, py, diag), diag))
  }

  /** The new centre on one axis: out from the opposite edge along the diagonal, half its new length. */
  function DragAxis(centre: real, side: real, size: real, diag: real, s: real, s0: real): real
    requires diag > 0.0 && s0 >= 1.0
  {
    (centre - side * size / 2.0) + (side * size / diag) * (diag * s / s0) / 2.0
  }

  function BoxOf(g: Geom, v: View): Box
    requires Known(g)
  {
    Box(Width(g, v.s), Height(g, v.s), CentreX(g, v), CentreY(g, v), v.s)
  }

  function ResizedTo(g: Geom, v0: View, c: Corner, diag: real, s: real): View
    requires Known(g) && v0.s >= 1.0 && diag > 0.0
  {
    View(s,
         DragAxis(CentreX(g, v0), c.sx, Width(g, v0.s), diag, s, v0.s) / g.fw * 100.0 - 50.0,
         DragAxis(CentreY(g, v0), c.sy, Height(g, v0.s), diag, s, v0.s) / g.fh * 100.0 - 50.0)
  }

  /** One move of a corner drag that began at view v0, before clamping. */
  function Resized(g: Geom, v0: View, c: Corner, px: real, py: real, diag: real): View
    requires Known(g) && v0.s >= 1.0 && diag > 0.0
  {
    ResizedTo(g, v0, c, diag, DragScale(BoxOf(g, v0), c, px, py, diag))
  }

  /** One move of a pan that began at view v0, before clamping. */
  function Panned(g: Geom, v0: View, dx: real, dy: real): View
    requires Known(g)
  {
    View(v0.s, v0.x + dx / g.fw * 100.0, v0.y + dy / g.fh * 100.0)
  }

  /** A wheel event at (cx, cy) percent from the frame centre; `factor` is 1.0015 to the -deltaY. */
  function Zoomed(v: View, cx: real, cy: real, factor: real): View
    requires v.s >= 1.0
  {
    var next := ClampS(v.s * factor);
    if next == v.s then v
    else
      var k := next / v.s;
      View(next, cx * (1.0 - k) + v.x * k, cy * (1.0 - k) + v.y * k)
  }

  lemma PctRoundTrip(p: real, f: real)
    requires f > 0.0
    ensures (50.0 + (p / f * 100.0 - 50.0)) / 100.0 * f == p
  {
    DivMul(p, f);
  }

  lemma HalfStep(u: real, sgn: real, w0: real, diag: real, s: real, s0: real)
    requires diag > 0.0 && s0 > 0.0 && u == sgn * w0 / diag
    ensures u * (diag * s / s0) == sgn * (w0 * s / s0)
  {
    DivMul(sgn * w0, diag);
    assert u * diag == sgn * w0;
    assert u * (diag * s / s0) == (u * diag) * s / s0;
  }

  lemma WidthScales(g: Geom, s0: real, s: real)
    requires Known(g) && s0 > 0.0
    ensures Width(g, s0) * s / s0 == Width(g, s) && Height(g, s0) * s / s0 == Height(g, s)
  {
    DivMul(s, s0);
    assert Width(g, s0) * s / s0 == g.iw * g.base * (s0 * s / s0);
    assert Height(g, s0) * s / s0 == g.ih * g.base * (s0 * s / s0);
  }

  lemma AxisKeepsOpposite(centre: real, side: real, size: real, diag: real, s: real, s0: real)
    requires diag > 0.0 && s0 >= 1.0
    ensures DragAxis(centre, side, size, diag, s, s0) - side * (size * s / s0) / 2.0 == centre - side * size / 2.0
  {
    HalfStep(side * size / diag, side, size, diag, s, s0);
  }

  lemma EdgeKept(centre: real, side: real, size: real, size': real, f: real, diag: real, s: real, s0: real, x: real)
    requires diag > 0.0 && s0 >= 1.0 && f > 0.0 && size * s / s0 == size'
    requires x == DragAxis(centre, side, size, diag, s, s0) / f * 100.0 - 50.0
    ensures (50.0 + x) / 100.0 * f + (-side) * size' / 2.0 == centre + (-side) * size / 2.0
  {
    AxisKeepsOpposite(centre, side, size, diag, s, s0);
    PctRoundTrip(DragAxis(centre, side, size, diag, s, s0), f);
    assert (-side) * size' == -(side * size') && (-side) * size == -(side * size);
  }

  /** Before clamping, a corner resize keeps the opposite corner where it was, at whatever scale. */
  lemma OppositeCornerFixed(g: Geom, v0: View, c: Corner, diag: real, s: real)
    requires Known(g) && v0.s >= 1.0 && diag > 0.0
    ensures var v := ResizedTo(g, v0, c, diag, s);
            CornerX(g, v, -c.sx) == CornerX(g, v0, -c.sx) && CornerY(g, v, -c.sy) == CornerY(g, v0, -c.sy)
  {
    var v := ResizedTo(g, v0, c, diag, s);
    WidthScales(g, v0.s, s);
    EdgeKept(CentreX(g, v0), c.sx, Width(g, v0.s), Width(g, s), g.fw, diag, s, v0.s, v.x);
    EdgeKept(CentreY(g, v0), c.sy, Height(g, v0.s), Height(g, s), g.fh, diag, s, v0.s, v.y);
  }

  lemma ProjectionOfCorner(sx: real, sy: real, w: real, h: real, diag: real)
    requires (sx == 1.0 || sx == -1.0) && (sy == 1.0 || sy == -1.0) && diag > 0.0 && diag * diag == w * w + h * h
    ensures (sx * w) * (sx * w / diag) + (sy * h) * (sy * h / diag) == diag
  {
    assert (sx * w) * (sx * w / diag) == w * w / diag;
    assert (sy * h) * (sy * h / diag) == h * h / diag;
    assert w * w / diag + h * h / diag == diag * diag / diag;
  }

  lemma Cancel(f: real, a: real, b: real)
    requires f > 0.0 && f * a == f * b
    ensures a == b
  {
    assert f * (a - b) == 0.0;
  }

  lemma MulDiv(p: real, f: real)
    requires f > 0.0
    ensures p * f / f == p
  {
    DivMul(p * f, f);
    Cancel(f, p * f / f, p);
  }

  lemma ProjectionAtRest(b: Box, c: Corner, diag: real)
    requires IsCorner(c) && diag > 0.0 && diag * diag == b.w * b.w + b.h * b.h
    ensures Projection(b, c, b.cx + c.sx * b.w / 2.0, b.cy + c.sy * b.h / 2.0, diag) == diag
  {
    ProjectionOfCorner(c.sx, c.sy, b.w, b.h, diag);
    var px, py := b.cx + c.sx * b.w / 2.0, b.cy + c.sy * b.h / 2.0;
    var ox, oy := b.cx - c.sx * b.w / 2.0, b.cy - c.sy * b.h / 2.0;
    assert px - ox == c.sx * b.w && py - oy == c.sy * b.h;
  }

  /** With the cursor on the corner it took hold of, a drag asks for the scale it began with. */
  lemma DragScaleAtRest(b: Box, c: Corner, diag: real)
    requires 1.0 <= b.s <= S_MAX && IsCorner(c) && diag > 0.0 && diag * diag == b.w * b.w + b.h * b.h
    ensures DragScale(b, c, b.cx + c.sx * b.w / 2.0, b.cy + c.sy * b.h / 2.0, diag) == b.s
  {
    ProjectionAtRest(b, c, diag);
    MulDiv(b.s, diag);
  }

  lemma AxisAtRest(centre: real, side: real, size: real, diag: real, s0: real, x: real, f: real)
    requires diag > 0.0 && s0 >= 1.0 && f > 0.0 && centre == (50.0 + x) / 100.0 * f
    ensures DragAxis(centre, side, size, diag, s0, s0) / f * 100.0 - 50.0 == x
  {
    AxisKeepsOpposite(centre, side, size, diag, s0, s0);
    MulDiv(size, s0);
    assert DragAxis(centre, side, size, diag, s0, s0) == centre;
    var p := (50.0 + x) / 100.0;
    MulDiv(p, f);
    assert centre / f == p;
  }

  lemma ResizedToItself(g: Geom, v0: View, c: Corner, diag: real)
    requires Known(g) && v0.s >= 1.0 && diag > 0.0
    ensures ResizedTo(g, v0, c, diag, v0.s) == v0
  {
    AxisAtRest(CentreX(g, v0), c.sx, Width(g, v0.s), diag, v0.s, v0.x, g.fw);
    AxisAtRest(CentreY(g, v0), c.sy, Height(g, v0.s), diag, v0.s, v0.y, g.fh);
  }

  /** A drag does not jump: at its first pixel the view is the one it began with. */
  lemma DragStartsAtRest(g: Geom, v0: View, c: Corner, diag: real)
    requires Known(g) && 1.0 <= v0.s <= S_MAX && IsCorner(c) && IsDiagonal(g, v0.s, diag)
    ensures Resized(g, v0, c, CornerX(g, v0, c.sx), CornerY(g, v0, c.sy), diag) == v0
  {
    DragScaleAtRest(BoxOf(g, v0), c, diag);
    ResizedToItself(g, v0, c, diag);
  }

  lemma AxisUnderCursor(c: real, x: real, s: real, next: real)
    requires s > 0.0 && next > 0.0
    ensures var k := next / s; (c - (c * (1.0 - k) + x * k)) / next == (c - x) / s
  {
    var k := next / s;
    DivMul(next, s);
    assert s * k == next;
    assert k > 0.0;
    SameRatio(c - x, s, k);
    assert c - (c * (1.0 - k) + x * k) == (c - x) * k;
  }

  /** Before clamping, a wheel zoom keeps the image point under the cursor: its distance from the
      image centre grows exactly with the image. */
  lemma PointUnderCursorFixed(v: View, cx: real, cy: real, factor: real)
    requires v.s >= 1.0
    ensures var z := Zoomed(v, cx, cy, factor);
            && z.s == (if v.s * factor < 1.0 then 1.0 else if v.s * factor > 5.0 then 5.0 else v.s * factor)
            && 1.0 <= z.s && (cx - z.x) / z.s == (cx - v.x) / v.s && (cy - z.y) / z.s == (cy - v.y) / v.s
  {
    var next := ClampS(v.s * factor);
    AxisUnderCursor(cx, v.x, v.s, next);
    AxisUnderCursor(cy, v.y, v.s, next);
  }

  lemma SameRatio(a: real, b: real, k: real)
    requires b > 0.0 && k > 0.0
    ensures b * k > 0.0 && (a * k) / (b * k) == a / b
  {
    var q := a / b;
    DivMul(a, b);
    assert q * (b * k) == a * k;
    DivMul(a * k, b * k);
  }

  lemma AxisPanned(x: real, d: real, f: real)
    requires f > 0.0
    ensures (50.0 + (x + d / f * 100.0)) / 100.0 * f == (50.0 + x) / 100.0 * f + d
  {
    DivMul(d, f);
    assert (50.0 + (x + d / f * 100.0)) / 100.0 * f == (50.0 + x) / 100.0 * f + d / f * f;
  }

  /** Before clamping, a pan moves the image by exactly the cursor's way, and does not scale it. */
  lemma PanFollowsCursor(g: Geom, v: View, dx: real, dy: real)
    requires Known(g)
    ensures var p := Panned(g, v, dx, dy);
            p.s == v.s && CentreX(g, p) == CentreX(g, v) + dx && CentreY(g, p) == CentreY(g, v) + dy
  {
    AxisPanned(v.x, dx, g.fw);
    AxisPanned(v.y, dy, g.fh);
  }

  lemma AlongDiagonal(b: Box, c: Corner, px: real, py: real, diag: real, t: real)
    requires IsCorner(c) && diag > 0.0 && diag * diag == b.w * b.w + b.h * b.h
    requires px == b.cx - c.sx * b.w / 2.0 + t * (c.sx * b.w) && py == b.cy - c.sy * b.h / 2.0 + t * (c.sy * b.h)
    ensures Projection(b, c, px, py, diag) == t * diag
  {
    ProjectionOfCorner(c.sx, c.sy, b.w, b.h, diag);
    var x, y := c.sx * b.w, c.sy * b.h;
    assert px - (b.cx - c.sx * b.w / 2.0) == t * x && py - (b.cy - c.sy * b.h / 2.0) == t * y;
    assert (t * x) * (x / diag) + (t * y) * (y / diag) == t * (x * (x / diag) + y * (y / diag));
  }

  /** A scale kept between one and five. */
  function Within(s: real): real {
    if s < 1.0 then 1.0 else if s > 5.0 then 5.0 else s
  }

  lemma Quotient(n: real, d: real, q: real)
    requires d > 0.0 && n == q * d
    ensures n / d == q
  {
    MulDiv(q, d);
  }

  lemma AskedScale(s: real, t: real, diag: real, proj: real)
    requires diag > 0.0 && proj == t * diag
    ensures Asked(s, proj, diag) == s * t
  {
    assert s * proj == (s * t) * diag;
    Quotient(s * proj, diag, s * t);
  }

  lemma ClampIsWithin(s: real)
    ensures ClampS(s) == Within(s)
  {
  }

  /** With the cursor t diagonals away from the opposite corner, a drag asks for t times the scale it
      began with, kept between one and five. */
  lemma DragScaleAlong(b: Box, c: Corner, px: real, py: real, diag: real, t: real)
    requires IsCorner(c) && diag > 0.0 && diag * diag == b.w * b.w + b.h * b.h
    requires px == b.cx - c.sx * b.w / 2.0 + t * (c.sx * b.w) && py == b.cy - c.sy * b.h / 2.0 + t * (c.sy * b.h)
    ensures DragScale(b, c, px, py, diag) == Within(b.s * t)
  {
    AlongDiagonal(b, c, px, py, diag, t);
    AskedScale(b.s, t, diag, Projection(b, c, px, py, diag));
    ClampIsWithin(b.s * t);
  }

  /** The clamp moves the view no further than it must: no covering view of that scale is nearer, on
      either axis. */
  lemma ClampIsNearest(e: Extent, v: View, w: View)
    requires Covers(e, w)
    ensures Abs(ClampBy(e, v).x - v.x) <= Abs(w.x - v.x) && Abs(ClampBy(e, v).y - v.y) <= Abs(w.y - v.y)
    ensures ClampBy(e, v).s == v.s
  {
  }

  lemma FitsTight(image: real, frame: real)
    requires image > 0.0 && frame > 0.0
    ensures Ratio(image, frame, frame / image * 1.0) == 1.0
  {
    DivMul(frame, image);
    assert image * (frame / image * 1.0) == frame;
    MulDiv(1.0, frame);
  }

  lemma RatioAtMost(image: real, frame: real, base: real)
    requires image > 0.0 && frame > 0.0 && base <= frame / image
    ensures Ratio(image, frame, base * 1.0) <= 1.0
  {
    DivMul(frame, image);
    assert image * base <= image * (frame / image);
    if image * (base * 1.0) < frame { BelowFrame(image * (base * 1.0), frame); } else { MulDiv(1.0, frame); }
  }

  lemma BelowFrame(a: real, f: real)
    requires f > 0.0 && a < f
    ensures a / f < 1.0
  {
  }

  /** At rest the image just meets the frame on one axis: in cover mode it reaches past it on the other,
      in contain mode it stays inside. */
  lemma GeomIsTight(iw: real, ih: real, fw: real, fh: real, contain: bool)
    requires iw > 0.0 && ih > 0.0 && fw > 0.0 && fh > 0.0
    ensures var e := ExtentOf(GeomOf(iw, ih, fw, fh, contain), 1.0);
            && (e.rx == 1.0 || e.ry == 1.0)
            && if contain then e.rx <= 1.0 && e.ry <= 1.0 else e.rx >= 1.0 && e.ry >= 1.0
  {
    var g := GeomOf(iw, ih, fw, fh, contain);
    FitsTight(iw, fw);
    FitsTight(ih, fh);
    if contain {
      RatioAtMost(iw, fw, g.base);
      RatioAtMost(ih, fh, g.base);
    } else {
      CoverIsWide(g, 1.0);
    }
  }

  function Abs(x: real): real { if x < 0.0 then -x else x }

  // ---------------------------------------------------------------- any sequence of gestures

  /** What may happen to the view. The geometry is None while the image is not loaded or the slot has
      no box. A drag's moves all start from the view at its press, and measure by the screen rectangle
      the slot had then. */
  datatype Gesture =
    | Press(screen: Geom)
    | PanMove(dx: real, dy: real)
    | ResizeMove(corner: Corner, px: real, py: real, diag: real)
    | Wheel(cx: real, cy: real, factor: real)
    | Render(now: Option<Geom>, stored: Option<View>)  // None stored: in reframe mode the view is kept
    | Laid(to: Option<Geom>)      // the img's load, or a frame that moved: laid out anew, not clamped

  predicate GeomOk(g: Option<Geom>) {
    g.Some? ==> Known(g.value) && Fitted(g.value)
  }

  /** A geometry is one _geom gives, a screen rectangle has an area, and a box a diagonal. */
  predicate WellFormed(e: Gesture) {
    match e
    case Press(screen) => Known(screen)
    case ResizeMove(_, _, _, diag) => diag > 0.0
    case Render(now, _) => GeomOk(now)
    case Laid(to) => GeomOk(to)
    case _ => true
  }

  /** What a press took hold of: the view, and the geometry it was measured by. */
  datatype Grip = Grip(view: View, g: Geom)

  predicate InRange(v: View) {
    1.0 <= v.s <= S_MAX
  }

  predicate StateOk(g: Option<Geom>, view: View, grip: Grip) {
    GeomOk(g) && InRange(view) && Known(grip.g) && InRange(grip.view)
  }

  function ClampIn(g: Option<Geom>, v: View): View
    requires GeomOk(g)
  {
    if g.Some? then ClampView(g.value, v) else v
  }

  function GeomAfter(g: Option<Geom>, e: Gesture): Option<Geom> {
    match e
    case Render(now, _) => now
    case Laid(to) => to
    case _ => g
  }

  function GripAfter(view: View, grip: Grip, e: Gesture): Grip {
    if e.Press? then Grip(view, e.screen) else grip
  }

  function After(g: Option<Geom>, view: View, grip: Grip, e: Gesture): View
    requires StateOk(g, view, grip) && WellFormed(e)
  {
    match e
    case Press(_) => view
    case PanMove(dx, dy) => ClampIn(g, Panned(grip.g, View(view.s, grip.view.x, grip.view.y), dx, dy))
    case ResizeMove(corner, px, py, diag) => ClampIn(g, Resized(grip.g, grip.view, corner, px, py, diag))
    case Wheel(cx, cy, factor) =>
      var zoomed := Zoomed(view, cx, cy, factor);
      if zoomed.s == view.s then view else ClampIn(g, zoomed)
    case Render(now, stored) => ClampIn(now, if stored.Some? then stored.value.(s := ClampS(stored.value.s)) else view)
    case Laid(_) => view
  }

  /** In cover mode part of the frame is not covered. */
  ghost predicate Gap(g: Option<Geom>, v: View)
    requires GeomOk(g)
  {
    g.Some? && !g.value.contain && !CoversFrame(g.value, v)
  }

  /** The view is panned further than the image reaches past the frame. */
  predicate Overpanned(g: Option<Geom>, v: View)
    requires GeomOk(g)
  {
    && g.Some? && !g.value.contain
    && var e := ExtentOf(g.value, v.s); Abs(v.x) > (e.rx - 1.0) * 50.0 || Abs(v.y) > (e.ry - 1.0) * 50.0
  }

  lemma GapIsOverpan(g: Option<Geom>, v: View)
    requires GeomOk(g)
    ensures Gap(g, v) <==> Overpanned(g, v)
  {
    if g.Some? { CoversWithin(ExtentOf(g.value, v.s), v); }
  }

  lemma CoversWithin(e: Extent, v: View)
    ensures Covers(e, v) <==> Abs(v.x) <= (e.rx - 1.0) * 50.0 && Abs(v.y) <= (e.ry - 1.0) * 50.0
  {
  }

  lemma ClampLeavesNoGap(g: Option<Geom>, v: View)
    requires GeomOk(g) && InRange(v)
    ensures InRange(ClampIn(g, v)) && !Gap(g, ClampIn(g, v))
  {
    if g.Some? {
      ClampPerAxis(ExtentOf(g.value, v.s), v);
      if !g.value.contain { CoverIsWide(g.value, v.s); }
    }
  }

  /** Where no clamp is needed the view is just what was asked for: a render shows the stored view, or
      keeps the one being framed; a pan puts the image where it was at the press plus the cursor's way,
      whatever moves came between. */
  lemma ShowsWhatWasAsked(g: Option<Geom>, view: View, grip: Grip, e: Gesture)
    requires StateOk(g, view, grip) && WellFormed(e) && GeomAfter(g, e).Some?
    ensures var to := GeomAfter(g, e).value;
            match e
            case Render(_, Some(stored)) => InRange(stored) && CoversFrame(to, stored) ==> After(g, view, grip, e) == stored
            case Render(_, None) => CoversFrame(to, view) ==> After(g, view, grip, e) == view
            case PanMove(dx, dy) =>
              var p := View(view.s, grip.view.x + dx / grip.g.fw * 100.0, grip.view.y + dy / grip.g.fh * 100.0);
              CoversFrame(to, p) ==> After(g, view, grip, e) == p
            case _ => true
  {
    match e
    case Render(now, stored) => ClampPerAxis(ExtentOf(now.value, view.s), view); if stored.Some? { StoredShown(now.value, stored.value); }
    case PanMove(dx, dy) =>
      var p := Panned(grip.g, View(view.s, grip.view.x, grip.view.y), dx, dy);
      ClampPerAxis(ExtentOf(g.value, p.s), p);
    case _ =>
  }

  lemma StoredShown(g: Geom, stored: View)
    requires Known(g)
    ensures InRange(stored) && CoversFrame(g, stored) ==> ClampView(g, stored.(s := ClampS(stored.s))) == stored
  {
    ClampPerAxis(ExtentOf(g, stored.s), stored);
  }

  /** The event ends in a clamp. */
  predicate Clamps(view: View, e: Gesture)
    requires view.s >= 1.0
  {
    match e
    case Press(_) => false
    case Wheel(cx, cy, factor) => Zoomed(view, cx, cy, factor).s != view.s
    case Laid(_) => false
    case _ => true
  }

  predicate Uncovers(view: View, e: Gesture)
    requires WellFormed(e)
  {
    e.Laid? && Overpanned(e.to, view)
  }

  predicate Mends(view: View, e: Gesture)
    requires WellFormed(e) && view.s >= 1.0
  {
    Clamps(view, e) || (e.Laid? && !Overpanned(e.to, view))
  }

  lemma AfterInRange(g: Option<Geom>, view: View, grip: Grip, e: Gesture)
    requires StateOk(g, view, grip) && WellFormed(e)
    ensures InRange(After(g, view, grip, e))
    ensures Clamps(view, e) ==> !Gap(GeomAfter(g, e), After(g, view, grip, e))
  {
    match e
    case Press(_) =>
    case PanMove(dx, dy) => ClampLeavesNoGap(g, Panned(grip.g, View(view.s, grip.view.x, grip.view.y), dx, dy));
    case ResizeMove(corner, px, py, diag) => ClampLeavesNoGap(g, Resized(grip.g, grip.view, corner, px, py, diag));
    case Wheel(cx, cy, factor) => ClampLeavesNoGap(g, Zoomed(view, cx, cy, factor));
    case Render(now, stored) => ClampLeavesNoGap(now, if stored.Some? then stored.value.(s := ClampS(stored.value.s)) else view);
    case Laid(_) =>
  }

  /** An event leaves a gap if and only if it is a new layout under which the view is panned too far,
      or there was one and the event neither clamps nor lays the image out anew. */
  lemma GapStep(g: Option<Geom>, view: View, grip: Grip, e: Gesture)
    requires StateOk(g, view, grip) && WellFormed(e)
    ensures Gap(GeomAfter(g, e), After(g, view, grip, e)) <==> if Gap(g, view) then !Mends(view, e) else Uncovers(view, e)
    ensures Uncovers(view, e) ==> Gap(GeomAfter(g, e), After(g, view, grip, e))
  {
    AfterInRange(g, view, grip, e);
    if e.Laid? { GapIsOverpan(e.to, view); }
  }

  /** The element's own fields. */
  class Reframe {
    var g: Option<Geom>
    var view: View
    var grip: Grip

    ghost predicate Valid()
      reads this
    {
      StateOk(g, view, grip)
    }

    constructor ()
      ensures Valid() && g == None && view == View(1.0, 0.0, 0.0)
    {
      g, view := None, View(1.0, 0.0, 0.0);
      grip := Grip(View(1.0, 0.0, 0.0), Geom(1.0, 1.0, 1.0, 1.0, 1.0, false));
    }

    /** _clampView. */
    method Clamp()
      requires GeomOk(g) && InRange(view)
      modifies this`view
      ensures view == ClampIn(g, old(view)) && InRange(view) && !Gap(g, view)
    {
      ClampLeavesNoGap(g, view);
      if g.Some? { view := ClampView(g.value, view); }
    }

    /** One event, whatever the events before it. */
    method Handle(e: Gesture)
      requires Valid()
      requires WellFormed(e)
      modifies this
      ensures Valid()
      ensures g == GeomAfter(old(g), e) && view == After(old(g), old(view), old(grip), e) && grip == GripAfter(old(view), old(grip), e)
      ensures Gap(g, view) <==> if old(Gap(g, view)) then !Mends(old(view), e) else Uncovers(old(view), e)
    {
      AfterInRange(g, view, grip, e);
      GapStep(g, view, grip, e);
      match e {
        case Press(screen) => grip := Grip(view, screen);
        case PanMove(dx, dy) =>
          view := Panned(grip.g, View(view.s, grip.view.x, grip.view.y), dx, dy);
          Clamp();
        case ResizeMove(corner, px, py, diag) =>
          view := Resized(grip.g, grip.view, corner, px, py, diag);
          Clamp();
        case Wheel(cx, cy, factor) =>
          var zoomed := Zoomed(view, cx, cy, factor);
          if zoomed.s != view.s {
            view := zoomed;
            Clamp();
          }
        case Render(now, stored) =>
          g := now;
          if stored.Some? { view := stored.value.(s := ClampS(stored.value.s)); }
          Clamp();
        case Laid(to) => g := to;
      }
    }
  }

  /** A run of events from a new element, with the geometry, the view and the grip after each. */
  ghost predicate IsRun(geoms: seq<Option<Geom>>, views: seq<View>, grips: seq<Grip>, es: seq<Gesture>) {
    && |geoms| == |views| == |grips| == |es| + 1
    && geoms[0] == None && views[0] == View(1.0, 0.0, 0.0) && StateOk(geoms[0], views[0], grips[0])
    && (forall i :: 0 <= i < |es| ==> WellFormed(es[i]) && geoms[i + 1] == GeomAfter(geoms[i], es[i]))
    && (forall i :: 0 <= i < |es| ==> grips[i + 1] == GripAfter(views[i], grips[i], es[i]))
    && forall i :: 0 <= i < |es| && StateOk(geoms[i], views[i], grips[i]) ==> views[i + 1] == After(geoms[i], views[i], grips[i], es[i])
  }

  lemma {:induction false} AlwaysInRange(geoms: seq<Option<Geom>>, views: seq<View>, grips: seq<Grip>, es: seq<Gesture>, i: nat)
    requires IsRun(geoms, views, grips, es) && i < |views|
    ensures StateOk(geoms[i], views[i], grips[i])
  {
    if i == 0 {
    } else {
      AlwaysInRange(geoms, views, grips, es, i - 1);
      AfterInRange(geoms[i - 1], views[i - 1], grips[i - 1], es[i - 1]);
    }
  }

  ghost function Uncovering(views: seq<View>, es: seq<Gesture>): seq<bool>
    requires |views| == |es| + 1
  {
    seq(|es|, k requires 0 <= k < |es| => WellFormed(es[k]) && Uncovers(views[k], es[k]))
  }

  ghost function Mending(views: seq<View>, es: seq<Gesture>): seq<bool>
    requires |views| == |es| + 1
  {
    seq(|es|, k requires 0 <= k < |es| => WellFormed(es[k]) && InRange(views[k]) && Mends(views[k], es[k]))
  }

  /** Over any sequence of pans, wheel zooms, corner resizes, renders and new layouts, in cover mode the
      image box fails to contain the frame if and only if the image was laid out anew under a view
      panned too far for it, and nothing that clamps, nor a layout that fits the view, came since. */
  lemma CoversUnlessLaidOut(geoms: seq<Option<Geom>>, views: seq<View>, grips: seq<Grip>, es: seq<Gesture>, i: nat)
    requires IsRun(geoms, views, grips, es) && i < |views|
    ensures StateOk(geoms[i], views[i], grips[i])
    ensures Gap(geoms[i], views[i]) <==> SetSince(Uncovering(views, es), Mending(views, es), i)
  {
    AlwaysInRange(geoms, views, grips, es, i);
    var on := seq(|views|, k requires 0 <= k < |views| => GeomOk(geoms[k]) && Gap(geoms[k], views[k]));
    var sets, clears := Uncovering(views, es), Mending(views, es);
    forall k | 0 <= k < |es|
      ensures (sets[k] ==> on[k + 1]) && (on[k + 1] <==> if on[k] then !clears[k] else sets[k])
    {
      AlwaysInRange(geoms, views, grips, es, k);
      AlwaysInRange(geoms, views, grips, es, k + 1);
      GapStep(geoms[k], views[k], grips[k], es[k]);
    }
    HeldSinceSet(on, sets, clears, i);
  }

  /** So as long as no new layout meets a view panned too far for it, the image box contains the frame
      whatever the gestures, whenever the fit is cover. */
  lemma AlwaysCovers(geoms: seq<Option<Geom>>, views: seq<View>, grips: seq<Grip>, es: seq<Gesture>, i: nat)
    requires IsRun(geoms, views, grips, es) && i < |views|
    requires forall k :: 0 <= k < i && es[k].Laid? ==> !Overpanned(es[k].to, views[k])
    ensures GeomOk(geoms[i]) && InRange(views[i])
    ensures geoms[i].Some? && !geoms[i].value.contain ==> CoversFrame(geoms[i].value, views[i])
  {
    CoversUnlessLaidOut(geoms, views, grips, es, i);
  }

  lemma SquareGeom(iw: real, g: Geom)
    requires iw >= 1000.0 && g == GeomOf(iw, 1000.0, 1000.0, 1000.0, false)
    ensures g.base == 1.0 && ExtentOf(g, 1.0) == Extent(iw / 1000.0, 1.0)
  {
    AtLeastOne(iw, 1000.0);
    assert 1000.0 / iw <= 1.0;
  }

  /** An image twice as wide as its frame, framed to one side, and then a square one in its place: the
      second is laid out with the first one's pan, and leaves part of the frame uncovered. */
  lemma LoadUncovers() returns (geoms: seq<Option<Geom>>, views: seq<View>, grips: seq<Grip>, es: seq<Gesture>)
    ensures IsRun(geoms, views, grips, es) && |es| == 3 && GeomOk(geoms[3]) && Gap(geoms[3], views[3])
  {
    var wide, square := GeomOf(2000.0, 1000.0, 1000.0, 1000.0, false), GeomOf(1000.0, 1000.0, 1000.0, 1000.0, false);
    SquareGeom(2000.0, wide);
    SquareGeom(1000.0, square);
    var start, aside := View(1.0, 0.0, 0.0), View(1.0, 40.0, 0.0);
    var grip := Grip(start, square);
    es := [Laid(Some(wide)), Render(Some(wide), Some(aside)), Laid(Some(square))];
    geoms := [None, Some(wide), Some(wide), Some(square)];
    views := [start, start, aside, aside];
    grips := [grip, grip, grip, grip];
    assert ClampView(wide, aside) == aside;
    GapIsOverpan(Some(square), aside);
  }
}
