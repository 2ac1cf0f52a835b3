/**
 * The placement arithmetic of backend/hirsakam_icon_generator.py: which
 * rotate/flip operations _apply_transforms performs, how a centre becomes a
 * paste origin for text, emoji and overlays, where add_text_to_image_obj puts
 * each line of a multi-line text, and how crop_image clamps its rectangle.
 * Rendering itself (PIL) is not modelled; the width PIL measures for a line
 * is a parameter.
 */
module Placement {
  import opened Wrappers

  /** Python's int() on a float: truncation toward zero. */
  function Trunc(v: real): (r: int)
    ensures v >= 0.0 ==> r as real <= v < r as real + 1.0
    ensures v < 0.0 ==> r as real - 1.0 < v <= r as real
    ensures v - 1.0 < r as real < v + 1.0
  {
    if v >= 0.0 then v.Floor else -((-v).Floor)
  }

  /** Two arguments at least 2 apart truncate to different integers, in order. */
  lemma TruncSeparates(a: real, b: real)
    requires b - a >= 2.0
    ensures Trunc(a) < Trunc(b)
  {
  }

  // ---------------------------------------------------------------------
  // _apply_transforms
  // ---------------------------------------------------------------------

  /** One PIL operation: a counter-clockwise rotation (with expand) or a horizontal mirror. */
  datatype Transform = Rotate(degrees: real) | FlipLeftRight

  /**
   * The operations applied to an overlay or emoji image, in order. The
   * element type the source passes along only selects a log message: both of
   * its branches choose the same angle.
   */
  function ApplyTransforms(rotation: real, flipHorizontal: bool): (ops: seq<Transform>)
    ensures ops == [] <==> rotation == 0.0 && !flipHorizontal
    ensures |ops| == (if rotation != 0.0 then 1 else 0) + (if flipHorizontal then 1 else 0)
    ensures rotation != 0.0 ==> ops[0] == Rotate(if flipHorizontal then rotation else -rotation)
    ensures flipHorizontal ==> ops[|ops| - 1] == FlipLeftRight
  {
    (if rotation != 0.0 then [Rotate(if flipHorizontal then rotation else -rotation)] else [])
    + (if flipHorizontal then [FlipLeftRight] else [])
  }

  /**
   * A map of the plane built from rotations and mirrors: rotate by `angle`
   * degrees counter-clockwise after mirroring when `mirrored`.
   */
  datatype Pose = Pose(angle: real, mirrored: bool)

  /** The pose after applying one more operation on top of `p`: a mirror negates the angle seen so far. */
  function Then(p: Pose, t: Transform): Pose
  {
    match t
    case Rotate(d) => Pose(p.angle + d, p.mirrored)
    case FlipLeftRight => Pose(-p.angle, !p.mirrored)
  }

  /** The pose reached by applying `ops` in order to `p`. */
  function Compose(p: Pose, ops: seq<Transform>): Pose
    decreases |ops|
  {
    if |ops| == 0 then p else Compose(Then(p, ops[0]), ops[1..])
  }

  /**
   * Whatever the flip, the operations place the image turned clockwise by
   * `rotation` (the on-screen sense of a CSS rotation); a flipped image is
   * mirrored first and then turned the same way, which is why the flipped
   * case rotates by +rotation before mirroring.
   */
  lemma TransformsTurnClockwise(rotation: real, flipHorizontal: bool)
    ensures Compose(Pose(0.0, false), ApplyTransforms(rotation, flipHorizontal)) == Pose(-rotation, flipHorizontal)
  {
    var ops := ApplyTransforms(rotation, flipHorizontal);
    if rotation != 0.0 && flipHorizontal {
      assert ops == [Rotate(rotation), FlipLeftRight];
      assert ops[1..] == [FlipLeftRight];
      assert ops[1..][1..] == [];
      calc {
        Compose(Pose(0.0, false), ops);
        Compose(Pose(rotation, false), ops[1..]);
        Compose(Pose(-rotation, true), ops[1..][1..]);
      }
    } else if rotation != 0.0 {
      assert ops == [Rotate(-rotation)];
      assert ops[1..] == [];
    } else if flipHorizontal {
      assert ops == [FlipLeftRight];
      assert ops[1..] == [];
    }
  }

  // ---------------------------------------------------------------------
  // Paste origins
  // ---------------------------------------------------------------------

  /** Text and emoji: the top-left coordinate that centres an image of `size` on `center`, rounding toward the top-left. */
  function CenteredPaste(center: int, size: int): (r: int)
    ensures 2 * r + size == 2 * center || 2 * r + size == 2 * center + 1
  {
    center - size / 2
  }

  /** Overlays: `int(x - width / 2)`, with true division and truncation. */
  function OverlayPaste(center: real, size: real): (r: int)
    ensures center - size / 2.0 - 1.0 < r as real < center - size / 2.0 + 1.0
  {
    Trunc(center - size / 2.0)
  }

  /**
   * For integral positions the overlay rule agrees with the text and emoji
   * rule except for an odd size whose origin lands at 1 or more, where it is
   * one pixel further to the top-left.
   */
  lemma OverlayPasteVersusCentred(center: int, size: int)
    ensures size % 2 == 0 ==> OverlayPaste(center as real, size as real) == CenteredPaste(center, size)
    ensures size % 2 == 1 && CenteredPaste(center, size) >= 1 ==>
              OverlayPaste(center as real, size as real) == CenteredPaste(center, size) - 1
    ensures size % 2 == 1 && CenteredPaste(center, size) <= 0 ==>
              OverlayPaste(center as real, size as real) == CenteredPaste(center, size)
  {
    var k := CenteredPaste(center, size);
    var q := size / 2;
    assert size == 2 * q + size % 2;
    if size % 2 == 0 {
      assert center as real - size as real / 2.0 == k as real;
    } else {
      assert center as real - size as real / 2.0 == k as real - 0.5;
    }
  }

  /** A 7-pixel overlay centred at 10 starts at 6, a 7-pixel emoji at 7; near the edge both start at 0. */
  lemma PasteExamples()
    ensures CenteredPaste(10, 7) == 7 && OverlayPaste(10.0, 7.0) == 6
    ensures CenteredPaste(3, 7) == 0 && OverlayPaste(3.0, 7.0) == 0
  {
    OverlayPasteVersusCentred(10, 7);
    OverlayPasteVersusCentred(3, 7);
  }

  // ---------------------------------------------------------------------
  // Multi-line text (add_text_to_image_obj)
  // ---------------------------------------------------------------------

  const LineHeightRatio: real := 1.2
  /** Extra width and height of the scratch canvas a rotated text is drawn on. */
  const TextCanvasPadding: int := 100
  /** Offset of the text inside that canvas. */
  const CanvasOffset: int := 50

  /** Python's `s.split(sep)`: the pieces between separators, with empty pieces kept. */
  function Split(s: string, sep: char): (parts: seq<string>)
    ensures |parts| >= 1
    ensures forall k :: 0 <= k < |parts| ==> sep !in parts[k]
    decreases |s|
  {
    if |s| == 0 then [""]
    else
      var rest := Split(s[1..], sep);
      if s[0] == sep then [""] + rest
      else [[s[0]] + rest[0]] + rest[1..]
  }

  /** `sep.join(parts)`. */
  function Join(parts: seq<string>, sep: char): string
    decreases |parts|
  {
    if |parts| == 0 then ""
    else if |parts| == 1 then parts[0]
    else parts[0] + [sep] + Join(parts[1..], sep)
  }

  /** Splitting loses nothing: joining the pieces back gives the text. */
  lemma {:induction false} JoinSplit(s: string, sep: char)
    ensures Join(Split(s, sep), sep) == s
    decreases |s|
  {
    if |s| > 0 {
      var rest := Split(s[1..], sep);
      JoinSplit(s[1..], sep);
      if s[0] == sep {
        assert ([""] + rest)[1..] == rest;
        assert s == [sep] + s[1..];
      } else {
        var parts := [[s[0]] + rest[0]] + rest[1..];
        assert Split(s, sep) == parts;
        if |rest| == 1 {
          assert s == [s[0]] + s[1..];
        } else {
          assert parts[1..] == rest[1..];
          assert Join(rest, sep) == rest[0] + [sep] + Join(rest[1..], sep);
          assert s == [s[0]] + s[1..];
        }
      }
    }
  }

  /** A text with one separator splits into two lines. */
  lemma SplitExample()
    ensures Split("a\nb", '\n') == ["a", "b"]
    ensures Split("a\n", '\n') == ["a", ""]
  {
    assert "a\nb"[1..] == "\nb";
    assert "\nb"[1..] == "b";
    assert "b"[1..] == "";
    assert Split("", '\n') == [""];
    assert ['b'] + "" == "b";
    assert Split("b", '\n') == [['b'] + Split("", '\n')[0]] + Split("", '\n')[1..];
    assert Split("b", '\n') == ["b"];
    assert Split("\nb", '\n') == ["", "b"];
    assert ['a'] + "" == "a";
    assert Split("a\nb", '\n') == [['a'] + Split("\nb", '\n')[0]] + Split("\nb", '\n')[1..];
    assert "a\n"[1..] == "\n";
    assert "\n"[1..] == "";
    assert Split("\n", '\n') == ["", ""];
  }

  /** The characters Python's str.isspace accepts. */
  predicate PyWhitespace(c: char)
  {
    var u := c as int;
    (0x09 <= u <= 0x0D) || (0x1C <= u <= 0x20) || u == 0x85 || u == 0xA0 || u == 0x1680
    || (0x2000 <= u <= 0x200A) || u == 0x2028 || u == 0x2029 || u == 0x202F || u == 0x205F
    || u == 0x3000
  }

  /** `not line.strip()`: the line is empty or only whitespace. */
  predicate IsBlank(line: string)
  {
    forall i :: 0 <= i < |line| ==> PyWhitespace(line[i])
  }

  function LineHeight(fontSize: int): real
  {
    fontSize as real * LineHeightRatio
  }

  /** `int(len(lines) * line_height)`. */
  function RawTotalHeight(lineCount: nat, fontSize: int): int
  {
    Trunc(lineCount as real * LineHeight(fontSize))
  }

  /** The block height: the raw height, or `int(line_height)` when that is 0. */
  function TotalHeight(lineCount: nat, fontSize: int): int
  {
    var t := RawTotalHeight(lineCount, fontSize);
    if t == 0 then Trunc(LineHeight(fontSize)) else t
  }

  /** The width a line contributes to the block: a blank line counts as one space. */
  function MeasuredWidth(line: string, measure: string -> nat): nat
  {
    if IsBlank(line) then measure(" ") else measure(line)
  }

  /** The widest measured line (0 for no lines). */
  function MaxWidthOf(lines: seq<string>, measure: string -> nat): (m: nat)
    ensures forall k :: 0 <= k < |lines| ==> MeasuredWidth(lines[k], measure) <= m
    ensures |lines| == 0 ==> m == 0
    ensures |lines| > 0 ==> exists k :: 0 <= k < |lines| && m == MeasuredWidth(lines[k], measure)
    decreases |lines|
  {
    if |lines| == 0 then 0
    else
      var init := lines[..|lines| - 1];
      var m := MaxWidthOf(init, measure);
      assert forall k :: 0 <= k < |init| ==> init[k] == lines[k];
      var w := MeasuredWidth(lines[|lines| - 1], measure);
      if m < w then w else m
  }

  /** The block width: the widest line, or the font size when every line measures 0. */
  function BlockWidth(lines: seq<string>, fontSize: int, measure: string -> nat): int
  {
    var m := MaxWidthOf(lines, measure);
    if m == 0 then fontSize else m
  }

  /** Where a line's top-left goes. */
  datatype LinePos = LinePos(x: int, y: int)

  /** The top of line `i` of a block whose first line starts at `top`: `int(top + i * line_height)`. */
  function LineTop(top: int, i: nat, lineHeight: real): (r: int)
    ensures top as real + i as real * lineHeight >= 0.0 ==>
              r as real <= top as real + i as real * lineHeight < r as real + 1.0
  {
    Trunc(top as real + i as real * lineHeight)
  }

  /** Line `i` drawn straight onto the image, or None for a blank line, which keeps its slot. */
  function DirectSlot(line: string, i: nat, centerX: int, startY: int, fontSize: int,
                      measure: string -> nat): (r: Option<LinePos>)
    ensures r.None? <==> IsBlank(line)
    ensures r.Some? ==> 2 * r.value.x + measure(line) == 2 * centerX || 2 * r.value.x + measure(line) == 2 * centerX + 1
    ensures r.Some? ==> r.value.y == LineTop(startY, i, LineHeight(fontSize))
  {
    if IsBlank(line) then None
    else Some(LinePos(CenteredPaste(centerX, measure(line)),
                      LineTop(startY, i, LineHeight(fontSize))))
  }

  /** Line `i` drawn onto the scratch canvas of a rotated text, centred within the block. */
  function CanvasSlot(line: string, i: nat, blockWidth: int, fontSize: int,
                      measure: string -> nat): (r: Option<LinePos>)
    ensures r.None? <==> IsBlank(line)
    ensures r.Some? && measure(line) <= blockWidth ==>
              CanvasOffset <= r.value.x && r.value.x + measure(line) <= CanvasOffset + blockWidth
    ensures r.Some? ==> r.value.y == LineTop(CanvasOffset, i, LineHeight(fontSize))
  {
    if IsBlank(line) then None
    else Some(LinePos(CanvasOffset + (blockWidth - measure(line)) / 2,
                      LineTop(CanvasOffset, i, LineHeight(fontSize))))
  }

  /** The layout of a text: straight onto the image, or onto a padded canvas that is then rotated. */
  datatype TextLayout =
    | Direct(startY: int, slots: seq<Option<LinePos>>)
    | OnCanvas(canvasWidth: int, canvasHeight: int, slots: seq<Option<LinePos>>)

  /** The first loop of add_text_to_image_obj: the widest measured line. */
  method MeasureBlock(lines: seq<string>, measure: string -> nat) returns (maxWidth: nat)
    ensures maxWidth == MaxWidthOf(lines, measure)
  {
    maxWidth := 0;
    var i := 0;
    while i < |lines|
      invariant 0 <= i <= |lines|
      invariant maxWidth == MaxWidthOf(lines[..i], measure)
    {
      assert lines[..i + 1][..i] == lines[..i];
      var w := MeasuredWidth(lines[i], measure);
      if maxWidth < w {
        maxWidth := w;
      }
      i := i + 1;
    }
    assert lines[..|lines|] == lines;
  }

  /** The drawing loop of the rotated branch. */
  method PlaceOnCanvas(lines: seq<string>, blockWidth: int, fontSize: int, measure: string -> nat)
    returns (slots: seq<Option<LinePos>>)
    ensures |slots| == |lines|
    ensures forall k :: 0 <= k < |lines| ==> slots[k] == CanvasSlot(lines[k], k, blockWidth, fontSize, measure)
  {
    var lineHeight := LineHeight(fontSize);
    slots := [];
    var i := 0;
    while i < |lines|
      invariant 0 <= i <= |lines|
      invariant |slots| == i
      invariant forall k :: 0 <= k < i ==> slots[k] == CanvasSlot(lines[k], k, blockWidth, fontSize, measure)
    {
      if IsBlank(lines[i]) {
        slots := slots + [None];
      } else {
        var lineX := CanvasOffset + (blockWidth - measure(lines[i])) / 2;
        var lineY := Trunc(CanvasOffset as real + i as real * lineHeight);
        assert lineY == LineTop(CanvasOffset, i, LineHeight(fontSize));
        slots := slots + [Some(LinePos(lineX, lineY))];
      }
      i := i + 1;
    }
  }

  /** The drawing loop of the unrotated branch. */
  method PlaceDirect(lines: seq<string>, centerX: int, startY: int, fontSize: int, measure: string -> nat)
    returns (slots: seq<Option<LinePos>>)
    ensures |slots| == |lines|
    ensures forall k :: 0 <= k < |lines| ==> slots[k] == DirectSlot(lines[k], k, centerX, startY, fontSize, measure)
  {
    var lineHeight := LineHeight(fontSize);
    slots := [];
    var i := 0;
    while i < |lines|
      invariant 0 <= i <= |lines|
      invariant |slots| == i
      invariant forall k :: 0 <= k < i ==> slots[k] == DirectSlot(lines[k], k, centerX, startY, fontSize, measure)
    {
      if IsBlank(lines[i]) {
        slots := slots + [None];
      } else {
        var lineX := centerX - measure(lines[i]) / 2;
        var lineY := Trunc(startY as real + i as real * lineHeight);
        assert lineY == LineTop(startY, i, LineHeight(fontSize));
        slots := slots + [Some(LinePos(lineX, lineY))];
      }
      i := i + 1;
    }
  }

  /**
   * The placement decisions of add_text_to_image_obj for `text` centred at
   * (`centerX`, `centerY`); `measure` is the width PIL's textbbox reports.
   */
  method LayoutText(text: string, centerX: int, centerY: int, fontSize: int, rotation: real,
                    measure: string -> nat) returns (layout: TextLayout)
    ensures |layout.slots| == |Split(text, '\n')|
    ensures layout.Direct? <==> rotation == 0.0
    ensures forall i :: 0 <= i < |layout.slots| ==> (layout.slots[i].None? <==> IsBlank(Split(text, '\n')[i]))
    ensures layout.Direct? ==>
              layout.startY == CenteredPaste(centerY, TotalHeight(|Split(text, '\n')|, fontSize))
    ensures layout.Direct? ==>
              forall i :: 0 <= i < |layout.slots| ==>
                layout.slots[i] == DirectSlot(Split(text, '\n')[i], i, centerX, layout.startY, fontSize, measure)
    ensures layout.OnCanvas? ==>
              && layout.canvasWidth == BlockWidth(Split(text, '\n'), fontSize, measure) + TextCanvasPadding
              && layout.canvasHeight == TotalHeight(|Split(text, '\n')|, fontSize) + TextCanvasPadding
    ensures layout.OnCanvas? ==>
              forall i :: 0 <= i < |layout.slots| ==>
                layout.slots[i] == CanvasSlot(Split(text, '\n')[i], i, BlockWidth(Split(text, '\n'), fontSize, measure), fontSize, measure)
  {
    var lines := Split(text, '\n');
    var lineHeight := LineHeight(fontSize);
    var totalHeight := RawTotalHeight(|lines|, fontSize);
    var maxWidth: int := MeasureBlock(lines, measure);
    if maxWidth == 0 {
      maxWidth := fontSize;
    }
    if totalHeight == 0 {
      totalHeight := Trunc(lineHeight);
    }
    assert totalHeight == TotalHeight(|lines|, fontSize);
    assert maxWidth == BlockWidth(lines, fontSize, measure);
    if rotation != 0.0 {
      var slots := PlaceOnCanvas(lines, maxWidth, fontSize, measure);
      layout := OnCanvas(maxWidth + TextCanvasPadding, totalHeight + TextCanvasPadding, slots);
    } else {
      var startY := centerY - totalHeight / 2;
      var slots := PlaceDirect(lines, centerX, startY, fontSize, measure);
      layout := Direct(startY, slots);
    }
  }

  /** Multiplication distributes over addition (kept apart so the reals stay linear elsewhere). */
  lemma Distribute(x: real, y: real, h: real)
    ensures (x + y) * h == x * h + y * h
  {
  }

  /** A factor of at least one does not shrink a non-negative height. */
  lemma ScaleAtLeast(d: real, h: real)
    requires d >= 1.0 && h >= 0.0
    ensures d * h >= h
  {
    assert d * h == h + (d - 1.0) * h;
  }

  /** With a line height of at least 2 the line tops strictly increase. */
  lemma LineTopsSeparate(top: int, i: nat, j: nat, lineHeight: real)
    requires i < j
    requires lineHeight >= 2.0
    ensures LineTop(top, i, lineHeight) < LineTop(top, j, lineHeight)
  {
    var d := (j - i) as real;
    assert j as real == i as real + d;
    Distribute(i as real, d, lineHeight);
    ScaleAtLeast(d, lineHeight);
    TruncSeparates(top as real + i as real * lineHeight, top as real + j as real * lineHeight);
  }

  /** With a font size of at least 2, later lines are drawn strictly lower than earlier ones. */
  lemma LinesStackDownwards(lines: seq<string>, i: nat, j: nat, centerX: int, startY: int,
                            fontSize: int, measure: string -> nat)
    requires fontSize >= 2
    requires i < j < |lines|
    requires !IsBlank(lines[i]) && !IsBlank(lines[j])
    ensures DirectSlot(lines[i], i, centerX, startY, fontSize, measure).value.y
            < DirectSlot(lines[j], j, centerX, startY, fontSize, measure).value.y
    ensures CanvasSlot(lines[i], i, BlockWidth(lines, fontSize, measure), fontSize, measure).value.y
            < CanvasSlot(lines[j], j, BlockWidth(lines, fontSize, measure), fontSize, measure).value.y
  {
    LineTopsSeparate(startY, i, j, LineHeight(fontSize));
    LineTopsSeparate(CanvasOffset, i, j, LineHeight(fontSize));
  }

  /** Each drawn line of a rotated text sits horizontally inside the padded canvas. */
  lemma CanvasLinesFitHorizontally(lines: seq<string>, i: nat, fontSize: int, measure: string -> nat)
    requires fontSize > 0
    requires i < |lines|
    requires !IsBlank(lines[i])
    ensures var x := CanvasSlot(lines[i], i, BlockWidth(lines, fontSize, measure), fontSize, measure).value.x;
      CanvasOffset <= x && x + measure(lines[i]) <= BlockWidth(lines, fontSize, measure) + CanvasOffset
  {
    var w := measure(lines[i]);
    var b := BlockWidth(lines, fontSize, measure);
    assert MeasuredWidth(lines[i], measure) == w;
    assert w <= MaxWidthOf(lines, measure);
    assert w <= b;
    assert 0 <= (b - w) / 2 <= b - w;
  }

  /** Each drawn line of a straight text is centred on the given x, rounding toward the left. */
  lemma DirectLinesAreCentred(line: string, i: nat, centerX: int, startY: int, fontSize: int,
                              measure: string -> nat)
    requires !IsBlank(line)
    ensures var x := DirectSlot(line, i, centerX, startY, fontSize, measure).value.x;
      2 * x + measure(line) == 2 * centerX || 2 * x + measure(line) == 2 * centerX + 1
  {
  }

  // ---------------------------------------------------------------------
  // crop_image
  // ---------------------------------------------------------------------

  /** KeepInput: the input path is returned untouched; otherwise the box passed to PIL's crop. */
  datatype CropOutcome = KeepInput | CropBox(left: int, top: int, right: int, bottom: int)

  /** The clamping steps of crop_image for an `imageWidth` x `imageHeight` image. */
  method ClampCrop(imageWidth: nat, imageHeight: nat, cropX: int, cropY: int,
                   cropWidth: int, cropHeight: int) returns (outcome: CropOutcome)
    ensures outcome.KeepInput? <==>
              (imageWidth == 0 || cropX >= imageWidth || cropWidth <= 0
               || imageHeight == 0 || cropY >= imageHeight || cropHeight <= 0)
    ensures outcome.CropBox? ==>
              && 0 <= outcome.left < outcome.right <= imageWidth
              && 0 <= outcome.top < outcome.bottom <= imageHeight
    ensures outcome.CropBox? ==>
              && outcome.left == (if cropX < 0 then 0 else cropX)
              && outcome.top == (if cropY < 0 then 0 else cropY)
              && outcome.right == (if outcome.left + cropWidth > imageWidth then imageWidth else outcome.left + cropWidth)
              && outcome.bottom == (if outcome.top + cropHeight > imageHeight then imageHeight else outcome.top + cropHeight)
  {
    var x, y, w, h := cropX, cropY, cropWidth, cropHeight;
    if x < 0 {
      x := 0;
    }
    if y < 0 {
      y := 0;
    }
    if x + w > imageWidth {
      w := imageWidth - x;
    }
    if y + h > imageHeight {
      h := imageHeight - y;
    }
    if w <= 0 || h <= 0 {
      return KeepInput;
    }
    outcome := CropBox(x, y, x + w, y + h);
  }

  /** A rectangle inside the image is cropped exactly; one starting left of the image is shifted right, not trimmed. */
  method CropExamples()
  {
    var inside := ClampCrop(100, 80, 10, 20, 30, 40);
    assert inside == CropBox(10, 20, 40, 60);
    var shifted := ClampCrop(100, 80, -10, 0, 30, 40);
    assert shifted == CropBox(0, 0, 30, 40);
    var outside := ClampCrop(100, 80, 100, 0, 30, 40);
    assert outside == KeepInput;
  }
}
