/**
 * Pure geometry of the preview editor (frontend/src/App.js): pointer angles,
 * corner-handle size deltas, clamping, rotation normalisation and the text
 * bounds heuristic. All quantities are display-space CSS pixels or degrees;
 * JavaScript numbers are modelled as exact reals.
 */
module Geometry {

  datatype Point = Point(x: real, y: real)

  datatype Bounds = Bounds(width: real, height: real)

  /** Widest a text block may grow before it wraps. */
  const MaxTextWidth: real := 400.0
  /** Approximate glyph width as a fraction of the font size. */
  const CharWidthRatio: real := 0.6
  /** Line height as a multiple of the font size. */
  const LineHeightRatio: real := 1.2

  /** Size limits of the emoji (and overlay width) and of the text font size. */
  const MinElementSize: real := 20.0
  const MaxElementSize: real := 500.0
  const MinFontSize: real := 12.0
  const MaxFontSize: real := 200.0

  /** Pointer-distance divisors: text/emoji handles and the less damped overlay handles. */
  const ElementSensitivity: real := 2.0
  const OverlaySensitivity: real := 1.5
  /** Text font size reacts a further three times slower than the emoji. */
  const FontSizeDamping: real := 3.0
  /** Size change per wheel tick. */
  const WheelStep: real := 5.0

  function Max(a: real, b: real): real { if a >= b then a else b }

  function Min(a: real, b: real): real { if a <= b then a else b }

  /** JavaScript Math.round: the nearest integer, halves rounded towards +infinity. */
  function RoundHalfUp(v: real): (r: int)
    ensures v - 0.5 < r as real <= v + 0.5
  {
    (v + 0.5).Floor
  }

  /** JavaScript Math.ceil. */
  function Ceil(v: real): (r: int)
    ensures v <= r as real < v + 1.0
  {
    -((-v).Floor)
  }

  /** Math.max(lo, Math.min(hi, v)). */
  function Clamp(lo: real, hi: real, v: real): (r: real)
    requires lo <= hi
    ensures lo <= r <= hi
    ensures lo <= v <= hi ==> r == v
    ensures v < lo ==> r == lo
    ensures v > hi ==> r == hi
  {
    Max(lo, Min(hi, v))
  }

  /**
   * calculateAngle: the direction from a centre to the pointer, in degrees.
   * `angleOf(dy, dx)` stands for Math.atan2(dy, dx) * 180 / PI, which is left
   * uninterpreted.
   */
  function CalculateAngle(angleOf: (real, real) -> real, center: Point, mouse: Point): real
  {
    angleOf(mouse.y - center.y, mouse.x - center.x)
  }

  /** Moving centre and pointer by the same vector does not change the angle. */
  lemma AngleIsTranslationInvariant(angleOf: (real, real) -> real, center: Point, mouse: Point, dx: real, dy: real)
    ensures CalculateAngle(angleOf, Point(center.x + dx, center.y + dy), Point(mouse.x + dx, mouse.y + dy))
         == CalculateAngle(angleOf, center, mouse)
  {
    assert (mouse.y + dy) - (center.y + dy) == mouse.y - center.y;
    assert (mouse.x + dx) - (center.x + dx) == mouse.x - center.x;
  }

  // ---------------------------------------------------------------------------
  // Corner handles

  /** Horizontal component of a handle's outward diagonal; unknown tags act as "se". */
  function OutwardX(direction: string): real
  {
    if direction == "nw" || direction == "sw" then -1.0 else 1.0
  }

  /** Vertical component of a handle's outward diagonal (screen y grows downwards). */
  function OutwardY(direction: string): real
  {
    if direction == "nw" || direction == "ne" then -1.0 else 1.0
  }

  /**
   * The switch over the resize direction in handleMouseMove: the size delta
   * for a pointer displacement (dx, dy) dragged from a corner handle.
   */
  function CornerSizeDelta(direction: string, dx: real, dy: real, sensitivity: real): (r: real)
    requires sensitivity > 0.0
    // the displacement projected onto the handle's outward diagonal
    ensures r * sensitivity == OutwardX(direction) * dx + OutwardY(direction) * dy
  {
    match direction
    case "nw" => -(dx + dy) / sensitivity
    case "ne" => (dx - dy) / sensitivity
    case "sw" => (-dx + dy) / sensitivity
    case "se" => (dx + dy) / sensitivity
    case _ => (dx + dy) / sensitivity
  }

  /** Dragging any handle straight outward by t on both axes grows the element by 2t/sensitivity. */
  lemma CornerOutwardDragGrows(direction: string, t: real, sensitivity: real)
    requires sensitivity > 0.0 && t > 0.0
    ensures CornerSizeDelta(direction, OutwardX(direction) * t, OutwardY(direction) * t, sensitivity) > 0.0
  {
    var r := CornerSizeDelta(direction, OutwardX(direction) * t, OutwardY(direction) * t, sensitivity);
    assert r * sensitivity == 2.0 * t;
  }

  /** A tag that is none of the four corners (the empty tag after mouse-up) behaves as "se". */
  lemma UnknownCornerActsAsSouthEast(direction: string, dx: real, dy: real, sensitivity: real)
    requires sensitivity > 0.0
    requires direction !in {"nw", "ne", "sw", "se"}
    ensures CornerSizeDelta(direction, dx, dy, sensitivity) == CornerSizeDelta("se", dx, dy, sensitivity)
  {
  }

  // ---------------------------------------------------------------------------
  // Rotation

  /** How far a raw angle lies outside [-180, 180], in started turns. */
  function OutOfRange(v: real): nat
  {
    if v > 180.0 then (v - 180.0).Floor + 1
    else if v < -180.0 then (-180.0 - v).Floor + 1
    else 0
  }

  /**
   * The two while loops of handleRotationMove: subtract 360 while above 180,
   * then add 360 while below -180.
   */
  function NormalizedAngle(v: real): (r: real)
    ensures -180.0 <= r <= 180.0
    decreases OutOfRange(v)
  {
    if v > 180.0 then NormalizedAngle(v - 360.0)
    else if v < -180.0 then NormalizedAngle(v + 360.0)
    else v
  }

  /** Number of whole turns the normalisation added (negative when it subtracted). */
  function TurnsAdded(v: real): int
    decreases OutOfRange(v)
  {
    if v > 180.0 then TurnsAdded(v - 360.0) - 1
    else if v < -180.0 then TurnsAdded(v + 360.0) + 1
    else 0
  }

  /** Normalisation lands in [-180, 180] and only ever adds whole turns. */
  lemma {:induction false} NormalizedAngleSpec(v: real)
    ensures -180.0 <= NormalizedAngle(v) <= 180.0
    ensures NormalizedAngle(v) == v + 360.0 * TurnsAdded(v) as real
    decreases OutOfRange(v)
  {
    if v > 180.0 {
      NormalizedAngleSpec(v - 360.0);
    } else if v < -180.0 {
      NormalizedAngleSpec(v + 360.0);
    }
  }

  /** Angles above 180 land in (-180, 180]; angles below -180 land in [-180, 180). */
  lemma {:induction false} NormalizedAngleSide(v: real)
    ensures v > 180.0 ==> -180.0 < NormalizedAngle(v) <= 180.0
    ensures v < -180.0 ==> -180.0 <= NormalizedAngle(v) < 180.0
    decreases OutOfRange(v)
  {
    if v > 180.0 {
      if v - 360.0 > 180.0 { NormalizedAngleSide(v - 360.0); }
    } else if v < -180.0 {
      if v + 360.0 < -180.0 { NormalizedAngleSide(v + 360.0); }
    }
  }

  /** Both ends of the range are kept as they are: -180 is not folded onto 180. */
  lemma NormalizedAngleKeepsBothEnds()
    ensures NormalizedAngle(180.0) == 180.0
    ensures NormalizedAngle(-180.0) == -180.0
    ensures NormalizedAngle(540.0) == 180.0
    ensures NormalizedAngle(-540.0) == -180.0
  {
    assert NormalizedAngle(540.0) == NormalizedAngle(180.0);
    assert NormalizedAngle(-540.0) == NormalizedAngle(-180.0);
  }

  /** A raw rotation of 190 degrees is stored as -170. */
  lemma NormalizedAngleExample()
    ensures NormalizedAngle(190.0) == -170.0
  {
    assert NormalizedAngle(190.0) == NormalizedAngle(-170.0);
  }

  /**
   * Rotation written by a rotate move: the gesture start recorded
   * `startAngle - currentRotation`; the move at pointer angle `moveAngle`
   * stores the rounded normalisation of `moveAngle - offset`.
   */
  function RotationFromGesture(startAngle: real, currentRotation: real, moveAngle: real): (r: int)
    ensures -180 <= r <= 180
  {
    var v := moveAngle - (startAngle - currentRotation);
    NormalizedAngleSpec(v);
    RoundHalfUp(NormalizedAngle(v))
  }

  /** A move at the start angle reproduces the element's rotation, normalised and rounded. */
  lemma RotationSeededByCurrent(angle: real, currentRotation: real)
    ensures RotationFromGesture(angle, currentRotation, angle) == RoundHalfUp(NormalizedAngle(currentRotation))
  {
    assert angle - (angle - currentRotation) == currentRotation;
  }

  /** In particular a stored rotation (an integer in [-180, 180]) is left untouched. */
  lemma StoredRotationIsFixedPoint(angle: real, rotation: int)
    requires -180 <= rotation <= 180
    ensures RotationFromGesture(angle, rotation as real, angle) == rotation
  {
    RotationSeededByCurrent(angle, rotation as real);
  }

  /** Turning the pointer a further 90 degrees about the centre of an unrotated element rotates it by 90. */
  lemma QuarterTurnExample(angle: real)
    requires -90.0 <= angle <= 90.0
    ensures RotationFromGesture(angle, 0.0, angle + 90.0) == 90
  {
    assert angle + 90.0 - (angle - 0.0) == 90.0;
  }

  // ---------------------------------------------------------------------------
  // Text bounds

  /**
   * JavaScript's `length` of a string: UTF-16 code units, so a character
   * beyond the Basic Multilingual Plane (most emoji) counts twice.
   */
  function Utf16Length(s: string): (n: nat)
    ensures |s| <= n <= 2 * |s|
    ensures n == |s| <==> forall i :: 0 <= i < |s| ==> s[i] as int <= 0xFFFF
  {
    if |s| == 0 then 0
    else
      var rest := Utf16Length(s[1..]);
      assert forall i :: 1 <= i < |s| ==> s[i] == s[1..][i - 1];
      (if s[0] as int > 0xFFFF then 2 else 1) + rest
  }

  /** Length is additive over concatenation. */
  lemma {:induction false} Utf16LengthConcat(a: string, b: string)
    ensures Utf16Length(a + b) == Utf16Length(a) + Utf16Length(b)
    decreases |a|
  {
    if |a| > 0 {
      assert (a + b)[1..] == a[1..] + b;
      Utf16LengthConcat(a[1..], b);
    } else {
      assert a + b == b;
    }
  }

  /** "😀" is one character but two UTF-16 units; "あ" is one of each. */
  lemma Utf16LengthExamples()
    ensures Utf16Length("😀") == 2
    ensures Utf16Length("aあ") == 2
  {
  }

  /** Estimated width of a run of `len` UTF-16 units at `fontSize`. */
  function TotalTextWidth(len: nat, fontSize: real): real
  {
    len as real * (fontSize * CharWidthRatio)
  }

  /** Number of 400-unit lines the heuristic wraps a text into. */
  function WrappedLines(len: nat, fontSize: real): (n: int)
    // the fewest lines (at least one) whose total width holds the text
    ensures n >= 1
    ensures TotalTextWidth(len, fontSize) <= MaxTextWidth * n as real
    ensures n == 1 || MaxTextWidth * (n - 1) as real < TotalTextWidth(len, fontSize)
  {
    var total := TotalTextWidth(len, fontSize);
    if total <= MaxTextWidth then 1 else Ceil(total / MaxTextWidth)
  }

  /**
   * The text branch of calculateTextBounds (repeated inline in the resize and
   * wheel handlers) for a text of `len` UTF-16 units.
   */
  function TextLineBounds(len: nat, fontSize: real): (b: Bounds)
    ensures b.height == fontSize * LineHeightRatio * WrappedLines(len, fontSize) as real
    ensures WrappedLines(len, fontSize) == 1 ==> b.width == Max(TotalTextWidth(len, fontSize), fontSize)
    ensures WrappedLines(len, fontSize) > 1 ==> b.width == MaxTextWidth
  {
    var total := TotalTextWidth(len, fontSize);
    if total <= MaxTextWidth then
      Bounds(Max(total, fontSize), fontSize * LineHeightRatio)
    else
      Bounds(MaxTextWidth, fontSize * LineHeightRatio * Ceil(total / MaxTextWidth) as real)
  }

  /** The text stays on one line exactly when its estimated width is at most 400. */
  lemma SingleLineThreshold(len: nat, fontSize: real)
    ensures WrappedLines(len, fontSize) == 1 <==> TotalTextWidth(len, fontSize) <= MaxTextWidth
  {
  }

  /** Twenty characters at size 20 fit on one 24-unit line; fifty wrap onto two (48 units). */
  lemma TextBoundsExamples()
    ensures TextLineBounds(20, 20.0) == Bounds(240.0, 24.0)
    ensures TextLineBounds(50, 20.0) == Bounds(400.0, 48.0)
  {
    assert TotalTextWidth(50, 20.0) == 600.0;
    assert Ceil(600.0 / 400.0) == 2;
  }
}
