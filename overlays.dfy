/**
 * Overlay images of the preview editor (frontend/src/App.js): the entry
 * created by an upload, the partial updates the handlers and form controls
 * merge into one entry, removal by index with the selection kept on the same
 * entry, and aspect-preserving resizing.
 */
module Overlays {
  import opened Wrappers
  import opened Geometry

  /** One overlay entry; the uploaded file and its object URL are not modelled. */
  datatype Overlay = Overlay(
    id: int,
    x: real, y: real,
    width: real, height: real,
    originalWidth: real, originalHeight: real,
    opacity: real,
    rotation: int)

  /** Longest side of a freshly uploaded overlay. */
  const UploadMaxSide: real := 150.0
  /** Where a freshly uploaded overlay is centred. */
  const UploadX: real := 200.0
  const UploadY: real := 150.0

  /** The partial objects merged by updateOverlayImage. */
  datatype OverlayUpdate =
    | MoveTo(x: real, y: real)
    | ResizeTo(width: real, height: real)
    | SetX(x: real)
    | SetY(y: real)
    | SetOpacity(opacity: real)
    | SetRotation(rotation: int)

  /** `{ ...img, ...updates }`: the named fields are replaced, the rest kept. */
  function Apply(o: Overlay, u: OverlayUpdate): Overlay
  {
    match u
    case MoveTo(x, y) => o.(x := x, y := y)
    case ResizeTo(w, h) => o.(width := w, height := h)
    case SetX(x) => o.(x := x)
    case SetY(y) => o.(y := y)
    case SetOpacity(a) => o.(opacity := a)
    case SetRotation(r) => o.(rotation := r)
  }

  /** updateOverlayImage: entry `i` takes the update, every other entry is left alone. */
  function UpdateAt(s: seq<Overlay>, i: int, u: OverlayUpdate): (r: seq<Overlay>)
    ensures |r| == |s|
    ensures forall j :: 0 <= j < |s| && j != i ==> r[j] == s[j]
    ensures 0 <= i < |s| ==> r[i] == Apply(s[i], u)
    ensures !(0 <= i < |s|) ==> r == s
  {
    if 0 <= i < |s| then s[i := Apply(s[i], u)] else s
  }

  /** Updates never touch the identity or the natural size of an overlay. */
  lemma UpdateKeepsOrigin(o: Overlay, u: OverlayUpdate)
    ensures Apply(o, u).id == o.id
    ensures Apply(o, u).originalWidth == o.originalWidth
    ensures Apply(o, u).originalHeight == o.originalHeight
  {
  }

  /** Applying the same update twice is the same as applying it once. */
  lemma {:induction false} UpdateAtIdempotent(s: seq<Overlay>, i: int, u: OverlayUpdate)
    ensures UpdateAt(UpdateAt(s, i, u), i, u) == UpdateAt(s, i, u)
  {
    if 0 <= i < |s| {
      assert Apply(Apply(s[i], u), u) == Apply(s[i], u);
    }
  }

  /** removeOverlayImage's filter: every entry but the one at `index`, in order. */
  function RemoveAt(s: seq<Overlay>, index: int): (r: seq<Overlay>)
    ensures 0 <= index < |s| ==> |r| == |s| - 1
    ensures 0 <= index < |s| ==> forall j :: 0 <= j < index ==> r[j] == s[j]
    ensures 0 <= index < |s| ==> forall j :: index <= j < |r| ==> r[j] == s[j + 1]
    ensures !(0 <= index < |s|) ==> r == s
  {
    if 0 <= index < |s| then s[..index] + s[index + 1..] else s
  }

  /** The selection after removing `index`: cleared if it was the removed entry, shifted down if after it. */
  function SelectionAfterRemove(selected: int, index: int): int
  {
    if selected == index then -1
    else if selected > index then selected - 1
    else selected
  }

  /** A selection is either -1 or the index of an entry. */
  predicate ValidSelection(selected: int, count: int)
  {
    -1 <= selected < count
  }

  /**
   * Removing an entry keeps the selection valid and on the same overlay it
   * was on, unless that overlay is the one removed.
   */
  lemma RemovalKeepsSelectedEntry(s: seq<Overlay>, selected: int, index: int)
    requires ValidSelection(selected, |s|)
    requires 0 <= index < |s|
    ensures ValidSelection(SelectionAfterRemove(selected, index), |RemoveAt(s, index)|)
    ensures selected == index ==> SelectionAfterRemove(selected, index) == -1
    ensures selected == -1 ==> SelectionAfterRemove(selected, index) == -1
    ensures 0 <= selected && selected != index ==>
              RemoveAt(s, index)[SelectionAfterRemove(selected, index)] == s[selected]
  {
  }

  /** Size and aspect of the entry created from an `imgWidth` x `imgHeight` upload. */
  function InitialOverlaySize(imgWidth: real, imgHeight: real): (b: Bounds)
    requires imgWidth > 0.0 && imgHeight > 0.0
    // the longer side is 150 (the height for a square) and the aspect is the image's
    ensures Max(b.width, b.height) == UploadMaxSide
    ensures imgWidth > imgHeight ==> b.width == UploadMaxSide
    ensures imgWidth <= imgHeight ==> b.height == UploadMaxSide
    ensures b.width * imgHeight == b.height * imgWidth
    ensures b.width > 0.0 && b.height > 0.0
  {
    if imgWidth > imgHeight then
      Bounds(UploadMaxSide, (imgHeight / imgWidth) * UploadMaxSide)
    else
      Bounds((imgWidth / imgHeight) * UploadMaxSide, UploadMaxSide)
  }

  /** The entry img.onload appends for an upload with timestamp `id`. */
  function NewOverlay(id: int, imgWidth: real, imgHeight: real): (o: Overlay)
    requires imgWidth > 0.0 && imgHeight > 0.0
    ensures o.x == UploadX && o.y == UploadY
    ensures o.width == InitialOverlaySize(imgWidth, imgHeight).width
    ensures o.height == InitialOverlaySize(imgWidth, imgHeight).height
    ensures o.originalWidth == imgWidth && o.originalHeight == imgHeight
    ensures o.opacity == 1.0 && o.rotation == 0
  {
    var b := InitialOverlaySize(imgWidth, imgHeight);
    Overlay(id, UploadX, UploadY, b.width, b.height, imgWidth, imgHeight, 1.0, 0)
  }

  /** A 300 x 100 upload starts as 150 x 50, a 100 x 100 one as 150 x 150. */
  lemma InitialSizeExamples()
    ensures InitialOverlaySize(300.0, 100.0) == Bounds(150.0, 50.0)
    ensures InitialOverlaySize(100.0, 100.0) == Bounds(150.0, 150.0)
  {
  }

  /** Every overlay entry keeps the natural size it was uploaded with, which is positive. */
  predicate HasNaturalSize(o: Overlay)
  {
    o.originalWidth > 0.0 && o.originalHeight > 0.0
  }

  /** Height per unit of width: from the natural size when both sides are known (non-zero), else from the current size. */
  function AspectRatio(o: Overlay): (r: real)
    requires (o.originalWidth != 0.0 && o.originalHeight != 0.0) || o.width != 0.0
    ensures o.originalWidth != 0.0 && o.originalHeight != 0.0 ==> r * o.originalWidth == o.originalHeight
    ensures !(o.originalWidth != 0.0 && o.originalHeight != 0.0) ==> r * o.width == o.height
  {
    if o.originalHeight != 0.0 && o.originalWidth != 0.0 then o.originalHeight / o.originalWidth
    else o.height / o.width
  }

  /** Width per unit of height, used by the height field of the form. */
  function InverseAspectRatio(o: Overlay): (r: real)
    requires (o.originalWidth != 0.0 && o.originalHeight != 0.0) || o.height != 0.0
    ensures o.originalWidth != 0.0 && o.originalHeight != 0.0 ==> r * o.originalHeight == o.originalWidth
    ensures !(o.originalWidth != 0.0 && o.originalHeight != 0.0) ==> r * o.height == o.width
  {
    if o.originalWidth != 0.0 && o.originalHeight != 0.0 then o.originalWidth / o.originalHeight
    else o.width / o.height
  }

  /**
   * The overlay branch of resizing by a corner handle: the width is the
   * starting width plus the handle's delta, clamped to [20, 500], and the
   * height follows the natural aspect.
   */
  function HandleResize(o: Overlay, initialWidth: real, delta: real): (u: OverlayUpdate)
    requires HasNaturalSize(o)
    ensures u.ResizeTo?
    ensures MinElementSize <= u.width <= MaxElementSize
    ensures u.width == Clamp(MinElementSize, MaxElementSize, initialWidth + delta)
    ensures u.height * o.originalWidth == u.width * o.originalHeight
  {
    var w := Clamp(MinElementSize, MaxElementSize, initialWidth + delta);
    ResizeTo(w, w * AspectRatio(o))
  }

  /** `parseInt(value) || fallback`: an unparsable entry (None) or 0 gives the fallback. */
  function ParsedOr(typed: Option<int>, fallback: int): (r: int)
    ensures typed.Some? && typed.value != 0 ==> r == typed.value
    ensures typed.None? || typed.value == 0 ==> r == fallback
  {
    if typed.Some? && typed.value != 0 then typed.value else fallback
  }

  /** The width field: the typed width (1 when empty or zero) with the height following the aspect. */
  function TypedWidth(o: Overlay, typed: Option<int>): (u: OverlayUpdate)
    requires HasNaturalSize(o)
    ensures u.ResizeTo? && u.width == ParsedOr(typed, 1) as real
    ensures u.height * o.originalWidth == u.width * o.originalHeight
  {
    var w := ParsedOr(typed, 1) as real;
    ResizeTo(w, w * AspectRatio(o))
  }

  /** The height field: the typed height (1 when empty or zero) with the width following the aspect. */
  function TypedHeight(o: Overlay, typed: Option<int>): (u: OverlayUpdate)
    requires HasNaturalSize(o)
    ensures u.ResizeTo? && u.height == ParsedOr(typed, 1) as real
    ensures u.height * o.originalWidth == u.width * o.originalHeight
  {
    var h := ParsedOr(typed, 1) as real;
    ResizeTo(h * InverseAspectRatio(o), h)
  }

  /** A 200 x 100 natural-size overlay dragged to width 120 becomes 120 x 60. */
  lemma HandleResizeExample(o: Overlay)
    requires o.originalWidth == 200.0 && o.originalHeight == 100.0
    ensures HandleResize(o, 100.0, 20.0) == ResizeTo(120.0, 60.0)
  {
  }

  /** Every listed overlay has its natural size. */
  predicate AllHaveNaturalSize(s: seq<Overlay>)
  {
    forall j :: 0 <= j < |s| ==> HasNaturalSize(s[j])
  }

  /** Updates and removals keep every entry's natural size. */
  lemma ListOperationsKeepNaturalSize(s: seq<Overlay>, i: int, u: OverlayUpdate)
    requires AllHaveNaturalSize(s)
    ensures AllHaveNaturalSize(UpdateAt(s, i, u))
    ensures AllHaveNaturalSize(RemoveAt(s, i))
  {
    forall j | 0 <= j < |UpdateAt(s, i, u)|
      ensures HasNaturalSize(UpdateAt(s, i, u)[j])
    {
      UpdateKeepsOrigin(s[j], u);
    }
  }
}
